/** The tables of the signal and demo ledger (database/database.py, database/models.py)
    as one value, and every write transaction as a function on it. A transaction that
    raises is a `Failure` and leaves the rows as they were. */
module Ledger {
  import opened Common
  import opened DemoAccount

  datatype Status = PendingEntry | Open | TpHit | SlHit | Cancelled

  predicate IsActive(s: Status) { s.PendingEntry? || s.Open? }
  predicate IsTerminal(s: Status) { !IsActive(s) }
  predicate HitTarget(s: Status) { s.TpHit? || s.SlHit? }

  /** `ALLOWED_TRANSITIONS`. */
  predicate Allowed(from: Status, to: Status) {
    match from
    case PendingEntry => to.Open? || to.Cancelled?
    case Open => IsTerminal(to)
    case _ => false
  }

  /** A signal row; its id is its index in the table. `wasOpened` tells a non-null `opened_at`. */
  datatype Signal = Signal(
    symbol: string, levels: Levels, status: Status, wasOpened: bool,
    closePrice: Option<real>, marketTs: Option<int>)

  datatype Account = Account(
    initialBalance: real, balance: real, equity: real, peakEquity: real,
    margin: real, leverage: int, riskPercent: real, feeRate: real)

  datatype Position = Position(
    id: nat, signalId: nat, symbol: string, side: Direction,
    entryPrice: real, quantity: real, positionSize: real, margin: real, leverage: int,
    stopLoss: real, takeProfit: real, closed: bool)

  datatype Trade = Trade(
    id: nat, positionId: nat, signalId: nat, side: Direction,
    entryPrice: real, quantity: real, positionSize: real, margin: real, leverage: int,
    numbers: Numbers)

  /** The outcome of a closed position. */
  datatype Numbers = Numbers(exitPrice: real, grossPnl: real, fee: real, netPnl: real, pnlPercent: real, won: bool)

  /** All rows. Position and trade ids are drawn from counters that never go back. */
  datatype Db = Db(
    signals: seq<Signal>, account: Option<Account>,
    positions: seq<Position>, trades: seq<Trade>, nextPositionId: nat, nextTradeId: nat)

  const EMPTY_DB := Db([], None, [], [], 0, 0)

  datatype DbError =
    | SignalExists | SignalNotFound | InvalidTransition | InvalidValue(field: string)
    | NotFound | Duplicate | Calculation(cause: CalcError)

  type Tx<T> = Result<T, DbError>

  function ToDecimal(value: real, field: string): Outcome<DbError> {
    Need(value > 0.0, InvalidValue(field))
  }

  // --- Queries --------------------------------------------------------------

  predicate ActiveFor(s: Signal, symbol: string) {
    s.symbol == symbol && IsActive(s.status)
  }

  /** Id of the oldest active signal of a symbol. */
  function ActiveSignal(signals: seq<Signal>, symbol: string, from: nat): (r: Option<nat>)
    requires from <= |signals|
    ensures r.Some? ==> from <= r.value < |signals| && ActiveFor(signals[r.value], symbol)
    ensures r.None? ==> forall i :: from <= i < |signals| ==> !ActiveFor(signals[i], symbol)
    decreases |signals| - from
  {
    if from == |signals| then None
    else if ActiveFor(signals[from], symbol) then Some(from)
    else ActiveSignal(signals, symbol, from + 1)
  }

  function PositionFor(positions: seq<Position>, signalId: nat): (r: Option<Position>)
    ensures r.Some? ==> r.value in positions && r.value.signalId == signalId
    ensures r.None? ==> forall i :: 0 <= i < |positions| ==> positions[i].signalId != signalId
  {
    if positions == [] then None
    else if positions[0].signalId == signalId then Some(positions[0])
    else PositionFor(positions[1..], signalId)
  }

  function PositionById(positions: seq<Position>, id: nat): (r: Option<Position>)
    ensures r.Some? ==> r.value in positions && r.value.id == id
    ensures r.None? ==> forall i :: 0 <= i < |positions| ==> positions[i].id != id
  {
    if positions == [] then None
    else if positions[0].id == id then Some(positions[0])
    else PositionById(positions[1..], id)
  }

  function TradeFor(trades: seq<Trade>, signalId: nat): (r: Option<Trade>)
    ensures r.Some? ==> r.value in trades && r.value.signalId == signalId
    ensures r.None? ==> forall i :: 0 <= i < |trades| ==> trades[i].signalId != signalId
  {
    if trades == [] then None
    else if trades[0].signalId == signalId then Some(trades[0])
    else TradeFor(trades[1..], signalId)
  }

  function OpenCount(positions: seq<Position>): nat {
    if positions == [] then 0 else OpenCount(positions[1..]) + if positions[0].closed then 0 else 1
  }

  // --- Signal transactions --------------------------------------------------

  function CreateSignal(db: Db, symbol: string, levels: Levels, marketTs: Option<int>): Tx<(Db, nat)> {
    var _ :- Need(PositiveLevels(levels), InvalidValue("price"));
    var _ :- Need(Ordered(levels), InvalidValue("price ordering"));
    var _ :- Need(ActiveSignal(db.signals, symbol, 0).None?, SignalExists);
    Success((db.(signals := db.signals + [Signal(symbol, levels, PendingEntry, false, None, marketTs)]), |db.signals|))
  }

  function TransitionSignal(db: Db, id: nat, to: Status, closePrice: Option<real>): Tx<(Db, Signal)> {
    var _ :- Need(closePrice.None? || closePrice.value > 0.0, InvalidValue("close_price"));
    var _ :- Need(id < |db.signals|, SignalNotFound);
    var row := db.signals[id];
    var _ :- Need(Allowed(row.status, to), InvalidTransition);
    var _ :- Need(HitTarget(to) ==> closePrice.Some?, InvalidValue("close_price"));
    var updated :=
      if to.Open? then row.(status := to, wasOpened := true, closePrice := None)
      else row.(status := to, closePrice := closePrice);
    Success((db.(signals := db.signals[id := updated]), updated))
  }

  function CancelSignal(db: Db, id: nat): Tx<(Db, Signal)> {
    TransitionSignal(db, id, Cancelled, None)
  }

  // --- Demo transactions ----------------------------------------------------

  datatype DemoConfig = DemoConfig(
    initialBalance: real, margin: real, leverage: int, riskPercent: real, feeRate: real, slippageBps: real)

  /** Creates the account once; an existing row is returned untouched. */
  function EnsureAccount(db: Db, cfg: DemoConfig): Tx<(Db, Account)> {
    var _ :- Need(cfg.initialBalance > 0.0 && cfg.margin > 0.0 && cfg.riskPercent > 0.0, InvalidValue("money"));
    var _ :- Need(cfg.feeRate > 0.0, InvalidValue("fee_rate"));
    var _ :- Need(cfg.leverage >= 1, InvalidValue("leverage"));
    if db.account.Some? then Success((db, db.account.value)) else
      var row := Account(cfg.initialBalance, cfg.initialBalance, cfg.initialBalance, cfg.initialBalance,
                         cfg.margin, cfg.leverage, cfg.riskPercent, cfg.feeRate);
      Success((db.(account := Some(row)), row))
  }

  /** Inserts an OPEN position unless the signal already has one. */
  function CreatePosition(
      db: Db, signalId: nat, symbol: string, side: Direction, entryPrice: real, quantity: real, positionSize: real,
      margin: real, leverage: int, stopLoss: real, takeProfit: real): Tx<(Db, Position)>
  {
    var _ :- Need(leverage >= 1, InvalidValue("leverage"));
    var existing := PositionFor(db.positions, signalId);
    if existing.Some? then Success((db, existing.value)) else
      var _ :- Need(entryPrice > 0.0 && quantity > 0.0 && positionSize > 0.0 && margin > 0.0, InvalidValue("position"));
      var _ :- Need(stopLoss > 0.0 && takeProfit > 0.0, InvalidValue("levels"));
      var row := Position(db.nextPositionId, signalId, symbol, side, entryPrice, quantity, positionSize,
                          margin, leverage, stopLoss, takeProfit, false);
      Success((db.(positions := db.positions + [row], nextPositionId := db.nextPositionId + 1), row))
  }

  function MarkClosed(positions: seq<Position>, id: nat): (r: seq<Position>)
    ensures |r| == |positions|
    ensures forall i :: 0 <= i < |r| ==>
              r[i] == if positions[i].id == id then positions[i].(closed := true) else positions[i]
  {
    seq(|positions|, i requires 0 <= i < |positions| =>
      if positions[i].id == id then positions[i].(closed := true) else positions[i])
  }

  predicate HasOpenRow(positions: seq<Position>, id: nat) {
    exists k :: 0 <= k < |positions| && positions[k].id == id && !positions[k].closed
  }

  /** What closing a row means for the cap: with unique ids it frees one slot exactly when
      that row was open, and none otherwise, so none when it is closed again. */
  lemma {:induction false} ClosingFreesOneSlot(positions: seq<Position>, id: nat)
    requires forall i, j :: 0 <= i < j < |positions| ==> positions[i].id != positions[j].id
    ensures OpenCount(MarkClosed(positions, id)) + (if HasOpenRow(positions, id) then 1 else 0) == OpenCount(positions)
  {
    if positions != [] {
      ClosingFreesOneSlot(positions[1..], id);
      OpenRowIsFirstOrLater(positions, id);
      hide HasOpenRow;
      assert MarkClosed(positions, id)[1..] == MarkClosed(positions[1..], id);
    }
  }

  /** What it means for the readers: every signal finds the position it found before,
      changed only if it is that row, and then only closed. */
  lemma {:induction false} ClosingKeepsLookups(positions: seq<Position>, id: nat, signalId: nat)
    ensures
      var before, after := PositionFor(positions, signalId), PositionFor(MarkClosed(positions, id), signalId);
      if before.None? then after.None?
      else after == Some(before.value.(closed := before.value.closed || before.value.id == id))
  {
    if positions != [] {
      ClosingKeepsLookups(positions[1..], id, signalId);
      assert MarkClosed(positions, id)[1..] == MarkClosed(positions[1..], id);
    }
  }

  lemma OpenRowIsFirstOrLater(positions: seq<Position>, id: nat)
    requires positions != []
    requires forall i, j :: 0 <= i < j < |positions| ==> positions[i].id != positions[j].id
    ensures HasOpenRow(positions, id)
       <==> (positions[0].id == id && !positions[0].closed) || HasOpenRow(positions[1..], id)
    ensures positions[0].id == id ==> !HasOpenRow(positions[1..], id)
  {
    var rest := positions[1..];
    if HasOpenRow(rest, id) {
      var k :| 0 <= k < |rest| && rest[k].id == id && !rest[k].closed;
      assert positions[k + 1] == rest[k];
    }
  }

  function Credit(a: Account, net: real): Account {
    var next := a.balance + net;
    a.(balance := next, equity := next, peakEquity := if next > a.peakEquity then next else a.peakEquity)
  }

  /** Closes the position, inserts its trade and moves the balance, in one transaction
      that reads the balance it updates. */
  function RecordTrade(db: Db, position: Position, signalId: nat, side: Direction, n: Numbers): Tx<(Db, Trade)> {
    var _ :- Need(position.leverage >= 1, InvalidValue("leverage"));
    var _ :- Need(PositionById(db.positions, position.id).Some?, NotFound);
    var _ :- Need(TradeFor(db.trades, signalId).None?, Duplicate);
    var _ :- Need(position.entryPrice > 0.0 && n.exitPrice > 0.0 && position.quantity > 0.0, InvalidValue("trade"));
    var _ :- Need(position.margin > 0.0 && position.positionSize > 0.0, InvalidValue("trade"));
    var _ :- ToDecimal(n.fee, "fee");
    var _ :- Need(db.account.Some?, NotFound);
    var row := Trade(db.nextTradeId, position.id, signalId, side, position.entryPrice, position.quantity,
                     position.positionSize, position.margin, position.leverage, n);
    Success((db.(positions := MarkClosed(db.positions, position.id), trades := db.trades + [row],
                 nextTradeId := db.nextTradeId + 1, account := Some(Credit(db.account.value, n.netPnl))), row))
  }

  /** Fresh start: no positions, no trades, every balance field at `initial`. */
  function ResetAccount(db: Db, initial: real): Tx<Db> {
    var _ :- ToDecimal(initial, "initial_balance");
    var _ :- Need(db.account.Some?, NotFound);
    var a := db.account.value.(initialBalance := initial, balance := initial, equity := initial, peakEquity := initial);
    Success(db.(positions := [], trades := [], account := Some(a)))
  }

  function UpdateAccountConfig(db: Db, margin: real, leverage: int, riskPercent: real, feeRate: real): Tx<Db> {
    var _ :- Need(margin > 0.0 && riskPercent > 0.0 && feeRate > 0.0, InvalidValue("money"));
    var _ :- Need(leverage >= 1, InvalidValue("leverage"));
    var _ :- Need(db.account.Some?, NotFound);
    var updated :=
      db.account.value.(margin := margin, leverage := leverage, riskPercent := riskPercent, feeRate := feeRate);
    Success(db.(account := Some(updated)))
  }

  // --- The executor's arithmetic (demo/executor.py) --------------------------

  const MAX_OPEN_POSITIONS := 3

  datatype Sizing = Sizing(entryPrice: real, quantity: real, positionSize: real)

  function FilledEntry(l: Levels, slippageBps: real): real {
    l.entry * SlippageFactor(slippageBps, l.direction, true)
  }

  function SizePosition(a: Account, l: Levels, slippageBps: real): Calc<Sizing> {
    var _ :- RequireNonnegative(slippageBps, "slippage_bps");
    var entry := FilledEntry(l, slippageBps);
    var sized :- ResolveQuantity(a.balance, a.margin, a.leverage, a.riskPercent, entry, l.stopLoss);
    Success(Sizing(entry, sized.0, sized.0 * entry))
  }

  /** Gross, fees, net and result of a quantity entered at one price and left at a level. */
  function SettleAt(
      direction: Direction, entryPrice: real, quantity: real, positionSize: real, margin: real,
      level: real, feeRate: real, slippageBps: real): Calc<Numbers>
  {
    var _ :- RequireNonnegative(slippageBps, "slippage_bps");
    var exit := level * SlippageFactor(slippageBps, direction, false);
    var gross :- GrossPnl(direction, entryPrice, exit, quantity);
    var fees :- TotalFee(positionSize, exit, quantity, feeRate);
    var net :- NetPnl(direction, entryPrice, exit, quantity, positionSize, feeRate);
    Success(Numbers(exit, gross, fees, net, if margin == 0.0 then 0.0 else net / margin * 100.0, net > 0.0))
  }

  /** The numbers a closed position gets, from its row, its signal's row, the account's
      fee rate and the configured slippage: nothing else enters. */
  function SettleNumbers(p: Position, s: Signal, feeRate: real, slippageBps: real): Calc<Numbers> {
    var level :=
      if s.closePrice.Some? then s.closePrice.value else if s.status.TpHit? then p.takeProfit else p.stopLoss;
    SettleAt(s.levels.direction, p.entryPrice, p.quantity, p.positionSize, p.margin, level, feeRate, slippageBps)
  }
}
