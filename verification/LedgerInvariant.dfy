/** What every ledger transaction keeps. */
module LedgerInvariant {
  import opened Common
  import opened DemoAccount
  import opened Ledger

  // --- Signals --------------------------------------------------------------

  ghost predicate OneActivePerSymbol(signals: seq<Signal>) {
    forall i, j :: 0 <= i < j < |signals| && IsActive(signals[i].status) && IsActive(signals[j].status)
      ==> signals[i].symbol != signals[j].symbol
  }

  predicate SignalOk(s: Signal) {
    && Ordered(s.levels) && PositiveLevels(s.levels)
    && (s.status.PendingEntry? ==> !s.wasOpened) && (IsActive(s.status) ==> s.closePrice.None?)
    && (s.status.Open? || HitTarget(s.status) ==> s.wasOpened)
    && (HitTarget(s.status) ==> s.closePrice.Some? && s.closePrice.value > 0.0)
  }

  ghost predicate SignalsOk(signals: seq<Signal>) {
    OneActivePerSymbol(signals) && forall i :: 0 <= i < |signals| ==> SignalOk(signals[i])
  }

  // --- Rows -----------------------------------------------------------------

  predicate PositionOk(p: Position, signals: seq<Signal>, nextId: nat) {
    && p.id < nextId && p.signalId < |signals| && signals[p.signalId].wasOpened
    && p.side == signals[p.signalId].levels.direction
    && p.stopLoss == signals[p.signalId].levels.stopLoss && p.takeProfit == signals[p.signalId].levels.takeProfit
    && p.entryPrice > 0.0 && p.quantity > 0.0 && p.positionSize > 0.0 && p.margin > 0.0 && p.leverage >= 1
  }

  ghost predicate PositionsOk(db: Db) {
    && (forall i :: 0 <= i < |db.positions| ==> PositionOk(db.positions[i], db.signals, db.nextPositionId))
    && (forall i, j :: 0 <= i < j < |db.positions| ==>
          db.positions[i].id != db.positions[j].id && db.positions[i].signalId != db.positions[j].signalId)
  }

  ghost predicate HasClosedRow(positions: seq<Position>, t: Trade) {
    exists k :: 0 <= k < |positions|
                && positions[k].id == t.positionId && positions[k].signalId == t.signalId && positions[k].closed
  }

  ghost predicate Traded(trades: seq<Trade>, signalId: nat) {
    exists i :: 0 <= i < |trades| && trades[i].signalId == signalId
  }

  predicate TradeOk(t: Trade, signals: seq<Signal>) {
    t.signalId < |signals| && HitTarget(signals[t.signalId].status)
  }

  ghost predicate TradesOk(db: Db) {
    && (forall i :: 0 <= i < |db.trades| ==>
          TradeOk(db.trades[i], db.signals) && HasClosedRow(db.positions, db.trades[i]))
    && (forall i, j :: 0 <= i < j < |db.trades| ==> db.trades[i].signalId != db.trades[j].signalId)
    && (forall k :: 0 <= k < |db.positions| && db.positions[k].closed ==> Traded(db.trades, db.positions[k].signalId))
  }

  // --- Balance --------------------------------------------------------------

  function SumNet(trades: seq<Trade>): real {
    if trades == [] then 0.0 else SumNet(trades[..|trades| - 1]) + trades[|trades| - 1].numbers.netPnl
  }

  /** The highest balance along the trades, starting from the initial one. */
  function PeakBalance(initial: real, trades: seq<Trade>): real {
    if trades == [] then initial
    else Max(PeakBalance(initial, trades[..|trades| - 1]), initial + SumNet(trades))
  }

  predicate AccountOk(a: Account, trades: seq<Trade>) {
    && a.balance == a.equity == a.initialBalance + SumNet(trades)
    && a.peakEquity == PeakBalance(a.initialBalance, trades)
    && a.initialBalance > 0.0 && a.margin > 0.0 && a.leverage >= 1 && a.riskPercent > 0.0 && a.feeRate > 0.0
  }

  ghost predicate BalanceOk(db: Db) {
    if db.account.Some? then AccountOk(db.account.value, db.trades)
    else db.positions == [] && db.trades == []
  }

  ghost predicate DbOk(db: Db) {
    SignalsOk(db.signals) && PositionsOk(db) && TradesOk(db) && BalanceOk(db)
  }

  /** The stored peak is the maximum of the balances ever reached since creation or reset. */
  lemma {:induction false} PeakIsMaximumOfBalances(initial: real, trades: seq<Trade>)
    ensures exists k :: 0 <= k <= |trades| && PeakBalance(initial, trades) == initial + SumNet(trades[..k])
    ensures forall k :: 0 <= k <= |trades| ==> initial + SumNet(trades[..k]) <= PeakBalance(initial, trades)
  {
    assert trades[..|trades|] == trades;
    if trades == [] {
      assert PeakBalance(initial, trades) == initial + SumNet(trades[..0]);
    } else {
      var front := trades[..|trades| - 1];
      PeakIsMaximumOfBalances(initial, front);
      var k :| 0 <= k <= |front| && PeakBalance(initial, front) == initial + SumNet(front[..k]);
      var at := if initial + SumNet(trades) > PeakBalance(initial, front) then |trades| else k;
      forall k | 0 <= k <= |front| ensures front[..k] == trades[..k] {
      }
      assert PeakBalance(initial, trades) == initial + SumNet(trades[..at]);
    }
  }

  // --- Preservation ---------------------------------------------------------

  lemma CreateSignalKeeps(db: Db, symbol: string, levels: Levels, marketTs: Option<int>)
    requires DbOk(db) && CreateSignal(db, symbol, levels, marketTs).Success?
    ensures DbOk(CreateSignal(db, symbol, levels, marketTs).value.0)
  {
    hide SumNet, PeakBalance;
  }

  /** A signal's row may only move forward: levels, symbol and everything else fixed at
      creation stay, an opening is never forgotten, and a terminal row is final. */
  predicate Evolves(before: Signal, after: Signal) {
    && before.symbol == after.symbol && before.levels == after.levels && before.marketTs == after.marketTs
    && (before.wasOpened ==> after.wasOpened)
    && (IsTerminal(before.status) ==> before == after)
    && (before.status.Open? ==> !after.status.PendingEntry?)
  }

  ghost predicate SignalsEvolve(before: seq<Signal>, after: seq<Signal>) {
    |before| <= |after| && forall i :: 0 <= i < |before| ==> Evolves(before[i], after[i])
  }

  lemma EvolutionIsTransitive(a: seq<Signal>, b: seq<Signal>, c: seq<Signal>)
    requires SignalsEvolve(a, b) && SignalsEvolve(b, c)
    ensures SignalsEvolve(a, c)
  {
  }

  lemma TransitionKeeps(db: Db, id: nat, to: Status, closePrice: Option<real>)
    requires DbOk(db) && TransitionSignal(db, id, to, closePrice).Success?
    ensures DbOk(TransitionSignal(db, id, to, closePrice).value.0)
    ensures SignalsEvolve(db.signals, TransitionSignal(db, id, to, closePrice).value.0.signals)
  {
    hide SumNet, PeakBalance;
  }

  lemma EnsureAccountKeeps(db: Db, cfg: DemoConfig)
    requires DbOk(db) && EnsureAccount(db, cfg).Success?
    ensures
      var (next, row) := EnsureAccount(db, cfg).value;
      DbOk(next) && next.account == Some(row) && next == db.(account := Some(row))
  {
  }

  lemma CreatePositionKeeps(
      db: Db, id: nat, entryPrice: real, quantity: real, positionSize: real, margin: real, leverage: int)
    requires DbOk(db) && db.account.Some? && id < |db.signals| && db.signals[id].wasOpened
    requires
      var s := db.signals[id];
      CreatePosition(db, id, s.symbol, s.levels.direction, entryPrice, quantity, positionSize, margin, leverage,
                     s.levels.stopLoss, s.levels.takeProfit).Success?
    ensures
      var s := db.signals[id];
      DbOk(CreatePosition(db, id, s.symbol, s.levels.direction, entryPrice, quantity, positionSize, margin, leverage,
                          s.levels.stopLoss, s.levels.takeProfit).value.0)
  {
    hide SumNet, PeakBalance;
    var s := db.signals[id];
    var (next, row) :=
      CreatePosition(db, id, s.symbol, s.levels.direction, entryPrice, quantity, positionSize, margin, leverage,
                     s.levels.stopLoss, s.levels.takeProfit).value;
    if next != db {
      assert next.positions == db.positions + [row] && !row.closed;
      assert PositionsOk(next);
      forall i | 0 <= i < |db.trades| ensures HasClosedRow(next.positions, db.trades[i]) {
        var k :| 0 <= k < |db.positions| && db.positions[k].id == db.trades[i].positionId
                 && db.positions[k].signalId == db.trades[i].signalId && db.positions[k].closed;
        assert next.positions[k] == db.positions[k];
      }
    }
  }

  lemma CreditKeepsAccount(a: Account, trades: seq<Trade>, t: Trade)
    requires AccountOk(a, trades)
    ensures AccountOk(Credit(a, t.numbers.netPnl), trades + [t])
  {
    assert (trades + [t])[..|trades|] == trades;
  }

  /** The row a caller settles, if its id still exists, belongs to the caller's signal:
      exactly what ids that are never reused give. */
  ghost predicate RowBelongs(positions: seq<Position>, id: nat, signalId: nat) {
    forall k :: 0 <= k < |positions| && positions[k].id == id ==> positions[k].signalId == signalId
  }

  lemma ClosingKeepsPositions(db: Db, id: nat)
    requires PositionsOk(db)
    ensures PositionsOk(db.(positions := MarkClosed(db.positions, id)))
  {
  }

  lemma ClosedRowStays(positions: seq<Position>, id: nat, t: Trade)
    requires HasClosedRow(positions, t)
    ensures HasClosedRow(MarkClosed(positions, id), t)
  {
    var k :| 0 <= k < |positions|
             && positions[k].id == t.positionId && positions[k].signalId == t.signalId && positions[k].closed;
    assert MarkClosed(positions, id)[k].closed;
  }

  lemma ClosingKeepsTrades(db: Db, id: nat, row: Trade)
    requires PositionsOk(db) && TradesOk(db) && TradeOk(row, db.signals) && row.positionId == id
    requires RowBelongs(db.positions, id, row.signalId) && PositionById(db.positions, id).Some?
    requires TradeFor(db.trades, row.signalId).None?
    ensures TradesOk(db.(positions := MarkClosed(db.positions, id), trades := db.trades + [row]))
  {
    hide PositionsOk, TradeOk;
    var closed, all := MarkClosed(db.positions, id), db.trades + [row];
    var at :| 0 <= at < |db.positions| && db.positions[at].id == id;
    assert closed[at].closed && closed[at].signalId == row.signalId;
    forall i | 0 <= i < |all| ensures HasClosedRow(closed, all[i]) {
      if i < |db.trades| {
        ClosedRowStays(db.positions, id, db.trades[i]);
      }
    }
    forall k | 0 <= k < |closed| && closed[k].closed ensures Traded(all, closed[k].signalId) {
      assert all[|db.trades|] == row;
      if db.positions[k].id != id {
        TradedStaysTraded(db.trades, row, db.positions[k].signalId);
      }
    }
  }

  lemma TradedStaysTraded(trades: seq<Trade>, row: Trade, signalId: nat)
    requires Traded(trades, signalId)
    ensures Traded(trades + [row], signalId)
  {
    var i :| 0 <= i < |trades| && trades[i].signalId == signalId;
    assert (trades + [row])[i] == trades[i];
  }

  lemma RecordTradeKeeps(db: Db, p: Position, id: nat, n: Numbers)
    requires DbOk(db) && p.signalId == id && id < |db.signals| && HitTarget(db.signals[id].status)
    requires RowBelongs(db.positions, p.id, id)
    requires RecordTrade(db, p, id, db.signals[id].levels.direction, n).Success?
    ensures DbOk(RecordTrade(db, p, id, db.signals[id].levels.direction, n).value.0)
  {
    hide SumNet, PeakBalance, AccountOk, Credit, PositionsOk, TradesOk, SignalsOk;
    var (next, row) := RecordTrade(db, p, id, db.signals[id].levels.direction, n).value;
    CreditKeepsAccount(db.account.value, db.trades, row);
    ClosingKeepsPositions(db, p.id);
    ClosingKeepsTrades(db, p.id, row);
    PositionsIgnoreTheRest(db.(positions := next.positions), next);
    TradesIgnoreTheRest(db.(positions := next.positions, trades := next.trades), next);
  }

  lemma PositionsIgnoreTheRest(a: Db, b: Db)
    requires PositionsOk(a) && a.positions == b.positions && a.signals == b.signals
    requires a.nextPositionId == b.nextPositionId
    ensures PositionsOk(b)
  {
  }

  lemma TradesIgnoreTheRest(a: Db, b: Db)
    requires TradesOk(a) && a.positions == b.positions && a.signals == b.signals && a.trades == b.trades
    ensures TradesOk(b)
  {
  }

  lemma ResetKeeps(db: Db, initial: real)
    requires DbOk(db) && ResetAccount(db, initial).Success?
    ensures DbOk(ResetAccount(db, initial).value)
  {
  }

  lemma UpdateConfigKeeps(db: Db, margin: real, leverage: int, riskPercent: real, feeRate: real)
    requires DbOk(db) && UpdateAccountConfig(db, margin, leverage, riskPercent, feeRate).Success?
    ensures DbOk(UpdateAccountConfig(db, margin, leverage, riskPercent, feeRate).value)
  {
    hide SumNet, PeakBalance;
  }
}
