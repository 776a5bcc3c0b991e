/** Any number of daemons, and the dashboard, over one ledger. Every database transaction is one atomic
    step; between steps a daemon holds only the rows it has read, other daemons move,
    and any daemon may crash. A run is an arbitrary sequence of actions. */
module Daemons {
  import opened Common
  import opened DemoAccount
  import opened Ledger
  import Monitor

  /** Where a daemon stands, with the rows it has read so far. */
  datatype Proc =
    | Idle
    | Watching(id: nat, row: Signal)
    | LostRace(symbol: string)
    | OpenLookup(id: nat, row: Signal)
    | OpenAccount(id: nat, row: Signal)
    | OpenCap(id: nat, row: Signal, account: Account)
    | OpenCommit(id: nat, row: Signal, account: Account)
    | ManualLookup(id: nat, row: Signal)
    | ManualPrice(id: nat, row: Signal)
    | CloseLookup(id: nat, row: Signal)
    | ClosePosition(id: nat, row: Signal)
    | CloseAccount(id: nat, row: Signal, position: Position)
    | CloseCommit(id: nat, row: Signal, position: Position, account: Account)

  datatype Action =
    | Create(symbol: string, levels: Levels, marketTs: Option<int>)
    | Cancel(id: nat)
    | Watch(p: nat, symbol: string)
    | Confirm(p: nat, high: real, low: real)
    | BeginOpen(p: nat, id: nat)
    | BeginClose(p: nat, id: nat)
    | BeginManual(p: nat, id: nat)
    | Price(p: nat, price: Option<real>)
    | Advance(p: nat, cfg: DemoConfig)
    | Crash(p: nat)
    | Reset(initial: real)
    | Configure(margin: real, leverage: int, riskPercent: real, feeRate: real)
    | Bootstrap(cfg: DemoConfig)

  datatype Sys = Sys(db: Db, procs: map<nat, Proc>)

  function ProcAt(s: Sys, p: nat): Proc {
    if p in s.procs then s.procs[p] else Idle
  }

  /** The monitor's decision on a closed candle, committed against the current rows;
      a transition lost to another daemon is re-read, never forced. */
  function ConfirmStep(db: Db, id: nat, row: Signal, high: real, low: real): (Db, Proc) {
    if row.status.PendingEntry? then
      if Monitor.EvaluateEntry(row.levels, high, low).EntryHit? then
        match TransitionSignal(db, id, Open, None)
        case Success(done) => (done.0, OpenLookup(id, done.1))
        case Failure(e) => (db, if e.InvalidTransition? then LostRace(row.symbol) else Idle)
      else (db, Idle)
    else
      var exit := Monitor.EvaluateCandle(row.levels, high, low);
      if Monitor.IsExit(exit) then
        var to := if exit.TpHit? then TpHit else SlHit;
        var price := if exit.TpHit? then row.levels.takeProfit else row.levels.stopLoss;
        match TransitionSignal(db, id, to, Some(price))
        case Success(done) => (done.0, CloseLookup(id, done.1))
        case Failure(_) => (db, Idle)
      else (db, Idle)
  }

  /** A manual close counts as TP_HIT when the market price is no worse than the entry. */
  function ManualTarget(row: Signal, price: real): Status {
    var profitable := if row.levels.direction.Long? then price >= row.levels.entry else price <= row.levels.entry;
    if profitable then TpHit else SlHit
  }

  /** The dashboard's close at the market price it was given; without a price, or when
      the monitor was first, it ends there. */
  function ManualStep(db: Db, id: nat, row: Signal, price: Option<real>): (Db, Proc) {
    if price.None? then (db, Idle) else
      match TransitionSignal(db, id, ManualTarget(row, price.value), price)
      case Success(done) => (done.0, CloseLookup(id, done.1))
      case Failure(_) => (db, Idle)
  }

  /** One database access of `open_position`, `close_position` or the dashboard's close. */
  function AdvanceStep(db: Db, proc: Proc, cfg: DemoConfig): (Db, Proc) {
    match proc
    case Idle => (db, Idle)
    case Watching(_, _) => (db, proc)
    case LostRace(symbol) =>
      var current := ActiveSignal(db.signals, symbol, 0);
      if current.Some? && db.signals[current.value].status.Open?
      then (db, OpenLookup(current.value, db.signals[current.value])) else (db, Idle)
    case OpenLookup(id, row) =>
      if row.status.Open? && PositionFor(db.positions, id).None? then (db, OpenAccount(id, row)) else (db, Idle)
    case OpenAccount(id, row) =>
      (match EnsureAccount(db, cfg)
       case Success(done) => (done.0, if done.1.balance < done.1.margin then Idle else OpenCap(id, row, done.1))
       case Failure(_) => (db, Idle))
    case OpenCap(id, row, account) =>
      (db, if OpenCount(db.positions) >= MAX_OPEN_POSITIONS then Idle else OpenCommit(id, row, account))
    case OpenCommit(id, row, account) => (CommitOpen(db, id, row, account, cfg), Idle)
    case ManualLookup(id, row) =>
      (db, if PositionFor(db.positions, id).Some? then ManualPrice(id, row) else Idle)
    case ManualPrice(_, _) => (db, proc)
    case CloseLookup(id, row) =>
      if HitTarget(row.status) && TradeFor(db.trades, id).None? then (db, ClosePosition(id, row)) else (db, Idle)
    case ClosePosition(id, row) =>
      var found := PositionFor(db.positions, id);
      if found.Some? then (db, CloseAccount(id, row, found.value)) else (db, Idle)
    case CloseAccount(id, row, position) =>
      (match EnsureAccount(db, cfg)
       case Success(done) => (done.0, CloseCommit(id, row, position, done.1))
       case Failure(_) => (db, Idle))
    case CloseCommit(id, row, position, account) => (CommitClose(db, id, row, position, account, cfg), Idle)
  }

  function CommitOpen(db: Db, id: nat, row: Signal, account: Account, cfg: DemoConfig): Db {
    match SizePosition(account, row.levels, cfg.slippageBps)
    case Failure(_) => db
    case Success(z) =>
      var r := CreatePosition(db, id, row.symbol, row.levels.direction, z.entryPrice, z.quantity, z.positionSize,
                              account.margin, account.leverage, row.levels.stopLoss, row.levels.takeProfit);
      if r.Success? then r.value.0 else db
  }

  function CommitClose(db: Db, id: nat, row: Signal, position: Position, account: Account, cfg: DemoConfig): Db {
    match SettleNumbers(position, row, account.feeRate, cfg.slippageBps)
    case Failure(_) => db
    case Success(n) =>
      var r := RecordTrade(db, position, id, row.levels.direction, n);
      if r.Success? then r.value.0 else db
  }

  function Put(s: Sys, p: nat, moved: (Db, Proc)): Sys {
    Sys(moved.0, s.procs[p := moved.1])
  }

  function Do(s: Sys, a: Action): Sys {
    match a
    case Create(symbol, levels, marketTs) =>
      var r := CreateSignal(s.db, symbol, levels, marketTs);
      if r.Success? then s.(db := r.value.0) else s
    case Cancel(id) =>
      var r := CancelSignal(s.db, id);
      if r.Success? then s.(db := r.value.0) else s
    case Watch(p, symbol) =>
      var found := ActiveSignal(s.db.signals, symbol, 0);
      if ProcAt(s, p).Idle? && found.Some?
      then Put(s, p, (s.db, Watching(found.value, s.db.signals[found.value])))
      else s
    case Confirm(p, high, low) =>
      var proc := ProcAt(s, p);
      if proc.Watching? then Put(s, p, ConfirmStep(s.db, proc.id, proc.row, high, low)) else s
    case BeginOpen(p, id) =>
      if ProcAt(s, p).Idle? && id < |s.db.signals| then Put(s, p, (s.db, OpenLookup(id, s.db.signals[id]))) else s
    case BeginClose(p, id) =>
      if ProcAt(s, p).Idle? && id < |s.db.signals| then Put(s, p, (s.db, CloseLookup(id, s.db.signals[id]))) else s
    case BeginManual(p, id) =>
      if ProcAt(s, p).Idle? && id < |s.db.signals| && s.db.signals[id].status.Open?
      then Put(s, p, (s.db, ManualLookup(id, s.db.signals[id])))
      else s
    case Price(p, price) =>
      var proc := ProcAt(s, p);
      if proc.ManualPrice? then Put(s, p, ManualStep(s.db, proc.id, proc.row, price)) else s
    case Advance(p, cfg) => Put(s, p, AdvanceStep(s.db, ProcAt(s, p), cfg))
    case Crash(p) => Put(s, p, (s.db, Idle))
    case Reset(initial) =>
      var r := ResetAccount(s.db, initial);
      if r.Success? then s.(db := r.value) else s
    case Configure(margin, leverage, riskPercent, feeRate) =>
      var r := UpdateAccountConfig(s.db, margin, leverage, riskPercent, feeRate);
      if r.Success? then s.(db := r.value) else s
    case Bootstrap(cfg) =>
      var r := EnsureAccount(s.db, cfg);
      if r.Success? then s.(db := r.value.0) else s
  }

  /** The state after a run that started from empty tables. */
  function Exec(acts: seq<Action>): Sys {
    if acts == [] then Sys(EMPTY_DB, map[]) else Do(Exec(acts[..|acts| - 1]), acts[|acts| - 1])
  }
}
