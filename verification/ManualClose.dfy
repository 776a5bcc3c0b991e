/** The dashboard's manual close (web/server.py): an OPEN signal leaves at the market
    price through the same transition, position and trade rows as a TP or SL. */
module ManualClose {
  import opened Common
  import opened DemoAccount
  import opened Ledger
  import opened LedgerInvariant
  import opened Store
  import opened Executor
  import opened CrashRecovery
  import D = Daemons
  import R = Recovery
  import ExecutorLaws
  import LiveAgreement

  datatype CloseError =
    | UnknownSignal | NotOpen | NoPosition | NoMarketPrice | ClosedFirst | Raised(cause: DbError)

  /** The checks and the transition: rows and signal as the close leaves them. */
  function Transitioned(db: Db, id: nat, price: Option<real>): Result<(Db, Signal), CloseError> {
    var _ :- Need(id < |db.signals|, UnknownSignal);
    var row := db.signals[id];
    var _ :- Need(row.status.Open?, NotOpen);
    var _ :- Need(PositionFor(db.positions, id).Some?, NoPosition);
    var _ :- Need(price.Some?, NoMarketPrice);
    match TransitionSignal(db, id, D.ManualTarget(row, price.value), price)
    case Success(done) => Success(done)
    case Failure(InvalidTransition) => Failure(ClosedFirst)
    case Failure(e) => Failure(Raised(e))
  }

  /** The whole call: rows, closed signal and its trade. */
  function CloseManually(
      db: Db, cfg: DemoConfig, id: nat, price: Option<real>): Result<(Db, Signal, Option<Trade>), CloseError>
  {
    var closed :- Transitioned(db, id, price);
    match R.ClosePosition(closed.0, cfg, id, closed.1)
    case Success(done) => Success((done.0, closed.1, done.1))
    case Failure(e) => Failure(Raised(e))
  }

  class Dashboard {
    const db: Database
    const executor: DemoExecutor

    ghost predicate Valid() {
      executor.db == db
    }

    constructor (db: Database, cfg: DemoConfig)
      ensures Valid() && this.db == db && executor.config == cfg
    {
      this.db := db;
      executor := new DemoExecutor(db, cfg);
    }

    /** An error before the transition leaves the rows; one of the demo write leaves the
        closed signal without its trade, which is what a restart then books. */
    method ClosePosition(id: nat, price: Option<real>) returns (r: Result<(Signal, Option<Trade>), CloseError>)
      requires Valid()
      modifies db
      ensures
        match CloseManually(old(db.Rows()), executor.config, id, price)
        case Success(v) => r == Success((v.1, v.2)) && db.Rows() == v.0
        case Failure(e) =>
          && r == Failure(e)
          && match Transitioned(old(db.Rows()), id, price)
             case Success(closed) => MaybeFunded(closed.0, db.Rows(), executor.config)
             case Failure(_) => db.Rows() == old(db.Rows())
    {
      hide R.ClosePosition, MaybeFunded;
      if id >= |db.signals| {
        return Failure(UnknownSignal);
      }
      var row := db.signals[id];
      if !row.status.Open? {
        return Failure(NotOpen);
      }
      var held := db.PositionForSignal(id);
      if held.None? {
        return Failure(NoPosition);
      }
      if price.None? {
        return Failure(NoMarketPrice);
      }
      var entry := row.levels.entry;
      var profitable := if row.levels.direction.Long? then price.value >= entry else price.value <= entry;
      var closed := db.TransitionSignal(id, if profitable then TpHit else SlHit, price);
      if closed.Failure? {
        return Failure(if closed.error.InvalidTransition? then ClosedFirst else Raised(closed.error));
      }
      var trade := executor.ClosePosition(id, closed.value);
      if trade.Failure? {
        return Failure(Raised(trade.error));
      }
      return Success((closed.value, trade.value));
    }
  }

  // --- On sound rows ------------------------------------------------------------

  /** What the caller can check beforehand. */
  predicate Closable(db: Db, id: nat, price: Option<real>) {
    && id < |db.signals| && db.signals[id].status.Open? && PositionFor(db.positions, id).Some?
    && price.Some? && price.value > 0.0
  }

  lemma TransitionLeavesSoundRows(db: Db, id: nat, price: Option<real>)
    requires DbOk(db) && Closable(db, id, price)
    ensures Transitioned(db, id, price).Success?
    ensures
      var (mid, row) := Transitioned(db, id, price).value;
      && DbOk(mid) && mid == db.(signals := db.signals[id := row]) && mid.signals[id] == row
      && HitTarget(row.status) && row.closePrice == price && row.levels == db.signals[id].levels
      && TradeFor(mid.trades, id).None?
  {
    hide PositionsOk, TradesOk, BalanceOk;
    TransitionKeeps(db, id, D.ManualTarget(db.signals[id], price.value), price);
    NoTradeWhileOpen(db, id);
  }

  lemma NoTradeWhileOpen(db: Db, id: nat)
    requires TradesOk(db) && id < |db.signals| && !HitTarget(db.signals[id].status)
    ensures TradeFor(db.trades, id).None?
  {
  }

  /** SUCCESS, exactly when: an OPEN signal with a position and a positive price. Then the
      rows stay sound and the close books one trade of that signal and its net. */
  lemma ManualCloseSucceedsExactlyWhen(db: Db, cfg: DemoConfig, id: nat, price: Option<real>)
    requires DbOk(db) && R.Operable(cfg)
    ensures CloseManually(db, cfg, id, price).Success? <==> Closable(db, id, price)
    ensures Closable(db, id, price) ==>
              var (after, row, trade) := CloseManually(db, cfg, id, price).value;
              && DbOk(after) && after.signals == db.signals[id := row] && trade.Some?
              && trade.value.signalId == id && after.trades == db.trades + [trade.value]
              && db.account.Some? && after.account.Some?
              && after.account.value.balance == db.account.value.balance + trade.value.numbers.netPnl
  {
    hide DbOk, R.ClosePosition, Transitioned;
    if Closable(db, id, price) {
      TransitionLeavesSoundRows(db, id, price);
      var (mid, row) := Transitioned(db, id, price).value;
      CloseBooksOneTrade(mid, cfg, id);
    } else {
      NotClosableFails(db, id, price);
    }
  }

  /** REFUSALS, exactly, in the order of the checks; and where a granted close lands. */
  lemma ManualCloseRefusesFor(db: Db, id: nat, price: Option<real>)
    ensures
      var r := Transitioned(db, id, price);
      var known := id < |db.signals|;
      var open := known && db.signals[id].status.Open?;
      var held := open && exists k :: 0 <= k < |db.positions| && db.positions[k].signalId == id;
      && (r == Failure(UnknownSignal) <==> !known) && (r == Failure(NotOpen) <==> known && !open)
      && (r == Failure(NoPosition) <==> open && !held) && (r == Failure(NoMarketPrice) <==> held && price.None?)
      && (r == Failure(Raised(InvalidValue("close_price"))) <==> held && price.Some? && price.value <= 0.0)
      && (r.Success? <==> held && price.Some? && price.value > 0.0)
      && (r.Success? ==>
            var l := db.signals[id].levels;
            && r.value.1.closePrice == price && r.value.0 == db.(signals := db.signals[id := r.value.1])
            && (r.value.1.status.TpHit? <==> if l.direction.Long? then price.value >= l.entry
                                              else price.value <= l.entry)
            && (r.value.1.status.SlHit? <==> !r.value.1.status.TpHit?))
  {
  }

  lemma NotClosableFails(db: Db, id: nat, price: Option<real>)
    requires !Closable(db, id, price)
    ensures Transitioned(db, id, price).Failure?
  {
  }

  lemma CloseBooksOneTrade(db: Db, cfg: DemoConfig, id: nat)
    requires DbOk(db) && R.Operable(cfg) && id < |db.signals| && HitTarget(db.signals[id].status)
    requires PositionFor(db.positions, id).Some? && TradeFor(db.trades, id).None?
    ensures R.ClosePosition(db, cfg, id, db.signals[id]).Success?
    ensures
      var (after, trade) := R.ClosePosition(db, cfg, id, db.signals[id]).value;
      && DbOk(after) && after.signals == db.signals && trade.Some?
      && trade.value.signalId == id && after.trades == db.trades + [trade.value]
      && db.account.Some? && after.account.Some?
      && after.account.value.balance == db.account.value.balance + trade.value.numbers.netPnl
  {
    hide DbOk, SettleNumbers, TradeFor, PositionFor;
    R.ClosePositionSettles(db, cfg, id);
    R.AccountIsThere(db, cfg, id);
  }

  /** Left alone, the dashboard's steps are one call. */
  lemma UninterruptedManualCloseIsOneCall(db: Db, cfg: DemoConfig, id: nat, price: Option<real>)
    requires CloseManually(db, cfg, id, price).Success?
    ensures
      var (looked, priced) := D.AdvanceStep(db, D.ManualLookup(id, db.signals[id]), cfg);
      && looked == db && priced.ManualPrice?
      && var (mid, proc) := D.ManualStep(db, priced.id, priced.row, price);
         LiveAgreement.StepFour(mid, proc, cfg) == (CloseManually(db, cfg, id, price).value.0, D.Idle)
  {
    hide R.ClosePosition, LiveAgreement.StepFour;
    var (mid, row) := Transitioned(db, id, price).value;
    LiveAgreement.UninterruptedCloseIsOneCall(mid, id, row, cfg);
  }

  /** A CRASHED MANUAL CLOSE: whatever else is unsettled or active, let the dashboard die
      right after the transition. The next restart books the trade at the market price the
      signal was closed at, and ends with the books of the finished close. */
  lemma RestartRepairsAManualClose(db: Db, cfg: DemoConfig, active: Option<nat>, id: nat, price: Option<real>)
    requires DbOk(db) && R.Operable(cfg) && Closable(db, id, price)
    requires active.Some? ==> active.value < |db.signals|
    ensures Transitioned(db, id, price).Success? && CloseManually(db, cfg, id, price).Success?
    ensures
      var (mid, done) := (Transitioned(db, id, price).value.0, CloseManually(db, cfg, id, price).value.0);
      && |mid.signals| == |done.signals| == |db.signals|
      && R.Reconcile(mid, cfg, active).Success? && R.Reconcile(done, cfg, active).Success?
      && SameBooks(R.Reconcile(mid, cfg, active).value.0, R.Reconcile(done, cfg, active).value.0)
      && TradeFor(R.Reconcile(mid, cfg, active).value.0.trades, id).Some?
      && TradeFor(R.Reconcile(mid, cfg, active).value.0.trades, id).value.numbers.exitPrice
         == price.value * SlippageFactor(cfg.slippageBps, db.signals[id].levels.direction, false)
  {
    hide DbOk, R.ClosePosition, R.Reconcile, Transitioned, TradeFor, SameBooks, SlippageFactor;
    TransitionLeavesSoundRows(db, id, price);
    var (mid, row) := Transitioned(db, id, price).value;
    RestartMakesUpForTheCrash(mid, cfg, active, id);
    CrashedCloseIsRepaired(mid, cfg, active, id);
    SettlesAtTheClosePrice(mid, cfg, id, row);
  }

  lemma SettlesAtTheClosePrice(db: Db, cfg: DemoConfig, id: nat, row: Signal)
    requires row.closePrice.Some? && TradeFor(db.trades, id).None? && HitTarget(row.status)
    requires R.ClosePosition(db, cfg, id, row).Success? && R.ClosePosition(db, cfg, id, row).value.1.Some?
    ensures R.ClosePosition(db, cfg, id, row).value.1.value.numbers.exitPrice
         == row.closePrice.value * SlippageFactor(cfg.slippageBps, row.levels.direction, false)
  {
    hide SlippageFactor, TradeFor, PositionFor;
  }

  // --- What TP_HIT means for a manual close --------------------------------------

  /** The exit pays for itself: the move beats the fee on both notionals. */
  predicate BeatsTheFees(d: Direction, entryPrice: real, exitPrice: real, fee: real) {
    if d.Long? then exitPrice * (1.0 - fee) > entryPrice * (1.0 + fee)
    else exitPrice * (1.0 + fee) < entryPrice * (1.0 - fee)
  }

  /** THE STATUS AGAINST THE MONEY: SL_HIT always loses; TP_HIT wins if and only if the
      exit also beats the fees on the filled entry. */
  lemma TpHitWinsExactlyWhen(p: Position, s: Signal, price: real, fee: real, slippageBps: real, entryBps: real)
    requires 0.0 <= slippageBps < 10000.0 && 0.0 <= entryBps < 10000.0 && fee > 0.0
    requires Ordered(s.levels) && PositiveLevels(s.levels) && price > 0.0
    requires s.closePrice == Some(price) && s.status == D.ManualTarget(s, price)
    requires p.quantity > 0.0 && p.entryPrice == FilledEntry(s.levels, entryBps)
    requires p.positionSize == p.quantity * p.entryPrice
    requires SettleNumbers(p, s, fee, slippageBps).Success?
    ensures
      var n := SettleNumbers(p, s, fee, slippageBps).value;
      && (s.status.SlHit? ==> !n.won)
      && (s.status.TpHit? ==> (n.won <==> BeatsTheFees(s.levels.direction, p.entryPrice, n.exitPrice, fee)))
  {
    hide SettleNumbers, SlippageFactor, FilledEntry, BeatsTheFees;
    var (n, d) := (SettleNumbers(p, s, fee, slippageBps).value, s.levels.direction);
    SettlesInMoves(p, s, price, fee, slippageBps, entryBps);
    NetSign(d, p.entryPrice, n.exitPrice, p.quantity, fee, n.netPnl);
    if s.status.SlHit? {
      WorseExitLoses(d, p.entryPrice, n.exitPrice, fee);
    }
  }

  lemma SettlesInMoves(p: Position, s: Signal, price: real, fee: real, slippageBps: real, entryBps: real)
    requires 0.0 <= slippageBps < 10000.0 && 0.0 <= entryBps < 10000.0 && fee > 0.0
    requires Ordered(s.levels) && PositiveLevels(s.levels) && price > 0.0 && s.closePrice == Some(price)
    requires s.status == D.ManualTarget(s, price) && p.entryPrice == FilledEntry(s.levels, entryBps)
    requires p.positionSize == p.quantity * p.entryPrice && SettleNumbers(p, s, fee, slippageBps).Success?
    ensures
      var (n, d, q, entry) :=
        (SettleNumbers(p, s, fee, slippageBps).value, s.levels.direction, p.quantity, p.entryPrice);
      && entry > 0.0 && n.exitPrice > 0.0 && (n.won <==> n.netPnl > 0.0)
      && n.netPnl == (if d.Long? then n.exitPrice - entry else entry - n.exitPrice) * q
                     - (q * entry * fee + n.exitPrice * q * fee)
      && (s.status.SlHit? ==> if d.Long? then n.exitPrice <= entry else n.exitPrice >= entry)
  {
    hide SettleNumbers, SlippageFactor;
    var (f, d) := (SlippageFactor(slippageBps, s.levels.direction, false), s.levels.direction);
    ExecutorLaws.SettlementAddsUp(p, s, fee, slippageBps);
    ExecutorLaws.ExitIsPositive(p, s, fee, slippageBps);
    ExecutorLaws.AdverseFillAt(s.levels, entryBps);
  }

  lemma NetSign(d: Direction, entry: real, exit: real, q: real, fee: real, net: real)
    requires q > 0.0
    requires net == (if d.Long? then exit - entry else entry - exit) * q - (q * entry * fee + exit * q * fee)
    ensures net > 0.0 <==> BeatsTheFees(d, entry, exit, fee)
  {
    var fe, fx := entry * fee, exit * fee;
    var margin := (if d.Long? then exit - entry else entry - exit) - fe - fx;
    assert net == margin * q by {
      assert q * entry * fee == fe * q;
      assert exit * q * fee == fx * q;
    }
    if margin > 0.0 {
      MulStrict(0.0, margin, q);
    } else {
      MulMono(margin, 0.0, q);
    }
    assert exit * (1.0 - fee) == exit - fx && entry * (1.0 + fee) == entry + fe;
    assert exit * (1.0 + fee) == exit + fx && entry * (1.0 - fee) == entry - fe;
  }

  lemma WorseExitLoses(d: Direction, entry: real, exit: real, fee: real)
    requires entry > 0.0 && exit > 0.0 && fee > 0.0 && if d.Long? then exit <= entry else exit >= entry
    ensures !BeatsTheFees(d, entry, exit, fee)
  {
    var fe, fx := entry * fee, exit * fee;
    assert fe > 0.0 by { MulStrict(0.0, fee, entry); }
    assert fx > 0.0 by { MulStrict(0.0, fee, exit); }
    assert exit * (1.0 - fee) == exit - fx && entry * (1.0 + fee) == entry + fe;
    assert exit * (1.0 + fee) == exit + fx && entry * (1.0 - fee) == entry - fe;
  }

  /** A LONG closed by hand at its own entry is TP_HIT, and loses both fees. */
  lemma TpHitMayLose()
    ensures
      var s := Signal("BTCUSDT", Levels(Long, 100.0, 90.0, 120.0), TpHit, true, Some(100.0), None);
      var p := Position(0, 0, "BTCUSDT", Long, 100.0, 1.0, 100.0, 10.0, 10, 90.0, 120.0, false);
      var n := SettleNumbers(p, s, 0.001, 0.0);
      && D.ManualTarget(s, 100.0) == s.status
      && n.Success? && n.value.netPnl == -0.2 && !n.value.won
  {
  }
}
