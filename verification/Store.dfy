/** The database as the daemons hold it: tables updated in place, one method per
    `BEGIN IMMEDIATE` transaction (database/database.py). Each method is proved to
    commit exactly what the ledger function of the same name prescribes. */
module Store {
  import opened Common
  import opened DemoAccount
  import opened Ledger

  /** `r` and the rows `after` are what transaction `spec` prescribes; a raise rolls back. */
  ghost predicate Committed<T>(before: Db, after: Db, r: Tx<T>, spec: Tx<(Db, T)>) {
    match spec
    case Success(v) => r == Success(v.1) && after == v.0
    case Failure(e) => r == Failure(e) && after == before
  }

  class Database {
    var signals: seq<Signal>
    var account: Option<Account>
    var positions: seq<Position>
    var trades: seq<Trade>
    var nextPositionId: nat
    var nextTradeId: nat

    function Rows(): Db
      reads this
    {
      Db(signals, account, positions, trades, nextPositionId, nextTradeId)
    }

    constructor ()
      ensures Rows() == EMPTY_DB
    {
      signals, account, positions, trades, nextPositionId, nextTradeId := [], None, [], [], 0, 0;
    }

    // --- Reads --------------------------------------------------------------

    method ActiveSignalFor(symbol: string) returns (r: Option<nat>)
      ensures r == ActiveSignal(signals, symbol, 0)
    {
      var i := 0;
      while i < |signals|
        invariant 0 <= i <= |signals|
        invariant ActiveSignal(signals, symbol, 0) == ActiveSignal(signals, symbol, i)
      {
        if signals[i].symbol == symbol && (signals[i].status.PendingEntry? || signals[i].status.Open?) {
          return Some(i);
        }
        i := i + 1;
      }
      return None;
    }

    method PositionForSignal(signalId: nat) returns (r: Option<Position>)
      ensures r == PositionFor(positions, signalId)
    {
      var i := 0;
      while i < |positions|
        invariant 0 <= i <= |positions|
        invariant PositionFor(positions, signalId) == PositionFor(positions[i..], signalId)
      {
        if positions[i].signalId == signalId {
          return Some(positions[i]);
        }
        i := i + 1;
      }
      return None;
    }

    method TradeForSignal(signalId: nat) returns (r: Option<Trade>)
      ensures r == TradeFor(trades, signalId)
    {
      var i := 0;
      while i < |trades|
        invariant 0 <= i <= |trades|
        invariant TradeFor(trades, signalId) == TradeFor(trades[i..], signalId)
      {
        if trades[i].signalId == signalId {
          return Some(trades[i]);
        }
        i := i + 1;
      }
      return None;
    }

    method CountOpenPositions() returns (n: nat)
      ensures n == OpenCount(positions)
    {
      n := 0;
      var i := 0;
      while i < |positions|
        invariant 0 <= i <= |positions|
        invariant OpenCount(positions) == n + OpenCount(positions[i..])
      {
        if !positions[i].closed {
          n := n + 1;
        }
        i := i + 1;
      }
    }

    // --- Signal transactions ------------------------------------------------

    method CreateSignal(symbol: string, levels: Levels, marketTs: Option<int>) returns (r: Tx<nat>)
      modifies this
      ensures Committed(old(Rows()), Rows(), r, Ledger.CreateSignal(old(Rows()), symbol, levels, marketTs))
    {
      if !(levels.entry > 0.0 && levels.stopLoss > 0.0 && levels.takeProfit > 0.0) {
        return Failure(InvalidValue("price"));
      }
      if !Ordered(levels) {
        return Failure(InvalidValue("price ordering"));
      }
      var existing := ActiveSignalFor(symbol);
      if existing.Some? {
        return Failure(SignalExists);
      }
      signals := signals + [Signal(symbol, levels, PendingEntry, false, None, marketTs)];
      return Success(|signals| - 1);
    }

    method TransitionSignal(id: nat, to: Status, closePrice: Option<real>) returns (r: Tx<Signal>)
      modifies this
      ensures Committed(old(Rows()), Rows(), r, Ledger.TransitionSignal(old(Rows()), id, to, closePrice))
    {
      if closePrice.Some? && closePrice.value <= 0.0 {
        return Failure(InvalidValue("close_price"));
      }
      if id >= |signals| {
        return Failure(SignalNotFound);
      }
      var row := signals[id];
      if !Allowed(row.status, to) {
        return Failure(InvalidTransition);
      }
      if HitTarget(to) && closePrice.None? {
        return Failure(InvalidValue("close_price"));
      }
      if to.Open? {
        signals := signals[id := row.(status := to, wasOpened := true, closePrice := None)];
      } else {
        signals := signals[id := row.(status := to, closePrice := closePrice)];
      }
      return Success(signals[id]);
    }

    method CancelSignal(id: nat) returns (r: Tx<Signal>)
      modifies this
      ensures Committed(old(Rows()), Rows(), r, Ledger.CancelSignal(old(Rows()), id))
    {
      r := TransitionSignal(id, Cancelled, None);
    }

    // --- Demo transactions --------------------------------------------------

    method EnsureAccount(cfg: DemoConfig) returns (r: Tx<Account>)
      modifies this
      ensures Committed(old(Rows()), Rows(), r, Ledger.EnsureAccount(old(Rows()), cfg))
    {
      if !(cfg.initialBalance > 0.0 && cfg.margin > 0.0 && cfg.riskPercent > 0.0) {
        return Failure(InvalidValue("money"));
      }
      if cfg.feeRate <= 0.0 {
        return Failure(InvalidValue("fee_rate"));
      }
      if cfg.leverage < 1 {
        return Failure(InvalidValue("leverage"));
      }
      if account.None? {
        account := Some(Account(cfg.initialBalance, cfg.initialBalance, cfg.initialBalance, cfg.initialBalance,
                                cfg.margin, cfg.leverage, cfg.riskPercent, cfg.feeRate));
      }
      return Success(account.value);
    }

    method CreatePosition(
        signalId: nat, symbol: string, side: Direction, entryPrice: real, quantity: real, positionSize: real,
        margin: real, leverage: int, stopLoss: real, takeProfit: real) returns (r: Tx<Position>)
      modifies this
      ensures Committed(old(Rows()), Rows(), r,
                        Ledger.CreatePosition(old(Rows()), signalId, symbol, side, entryPrice, quantity, positionSize,
                                              margin, leverage, stopLoss, takeProfit))
    {
      if leverage < 1 {
        return Failure(InvalidValue("leverage"));
      }
      var existing := PositionForSignal(signalId);
      if existing.Some? {
        return Success(existing.value);
      }
      if !(entryPrice > 0.0 && quantity > 0.0 && positionSize > 0.0 && margin > 0.0) {
        return Failure(InvalidValue("position"));
      }
      if !(stopLoss > 0.0 && takeProfit > 0.0) {
        return Failure(InvalidValue("levels"));
      }
      var row := Position(nextPositionId, signalId, symbol, side, entryPrice, quantity, positionSize,
                          margin, leverage, stopLoss, takeProfit, false);
      positions := positions + [row];
      nextPositionId := nextPositionId + 1;
      return Success(row);
    }

    /** `UPDATE demo_positions SET status = 'CLOSED' WHERE id = ?`; tells whether a row matched. */
    method MarkPositionClosed(id: nat) returns (found: bool)
      modifies this`positions
      ensures positions == MarkClosed(old(positions), id)
      ensures found <==> PositionById(old(positions), id).Some?
    {
      found := false;
      var i := 0;
      while i < |positions|
        invariant 0 <= i <= |positions| == |old(positions)|
        invariant forall k :: 0 <= k < i ==> positions[k] == MarkClosed(old(positions), id)[k]
        invariant forall k :: i <= k < |positions| ==> positions[k] == old(positions)[k]
        invariant found <==> exists k :: 0 <= k < i && old(positions)[k].id == id
      {
        if positions[i].id == id {
          positions := positions[i := positions[i].(closed := true)];
          found := true;
        }
        i := i + 1;
      }
    }

    /** Closes the position, inserts the trade and moves the balance; when a later
        statement of the transaction raises, the earlier ones are undone. */
    method RecordTrade(position: Position, signalId: nat, side: Direction, n: Numbers) returns (r: Tx<Trade>)
      modifies this
      ensures Committed(old(Rows()), Rows(), r, Ledger.RecordTrade(old(Rows()), position, signalId, side, n))
    {
      if position.leverage < 1 {
        return Failure(InvalidValue("leverage"));
      }
      var begin := positions;
      var duplicate := TradeForSignal(signalId);
      var found := MarkPositionClosed(position.id);
      var error: Option<DbError> := None;
      if !found {
        error := Some(NotFound);
      } else if duplicate.Some? {
        error := Some(Duplicate);
      } else if !(position.entryPrice > 0.0 && n.exitPrice > 0.0 && position.quantity > 0.0
                  && position.margin > 0.0 && position.positionSize > 0.0) {
        error := Some(InvalidValue("trade"));
      } else if n.fee <= 0.0 {
        error := Some(InvalidValue("fee"));
      } else if account.None? {
        error := Some(NotFound);
      }
      if error.Some? {
        positions := begin;
        return Failure(error.value);
      }
      var row := Trade(nextTradeId, position.id, signalId, side, position.entryPrice, position.quantity,
                       position.positionSize, position.margin, position.leverage, n);
      trades := trades + [row];
      nextTradeId := nextTradeId + 1;
      var a := account.value;
      var balance := a.balance + n.netPnl;
      var peak := a.peakEquity;
      if balance > peak {
        peak := balance;
      }
      account := Some(a.(balance := balance, equity := balance, peakEquity := peak));
      return Success(row);
    }

    method ResetAccount(initial: real) returns (r: Tx<()>)
      modifies this
      ensures
        match Ledger.ResetAccount(old(Rows()), initial)
        case Success(db) => r == Success(()) && Rows() == db
        case Failure(e) => r == Failure(e) && Rows() == old(Rows())
    {
      if initial <= 0.0 {
        return Failure(InvalidValue("initial_balance"));
      }
      if account.None? {
        return Failure(NotFound);
      }
      positions, trades := [], [];
      account := Some(account.value.(initialBalance := initial, balance := initial,
                                     equity := initial, peakEquity := initial));
      return Success(());
    }
  }
}
