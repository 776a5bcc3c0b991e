/** Safety of the shared ledger over every interleaving and every crash. */
module LedgerSafety {
  import opened Common
  import opened DemoAccount
  import opened Ledger
  import opened LedgerInvariant
  import opened Daemons

  // --- How the rows may change between two reads -----------------------------

  predicate SameRow(a: Position, b: Position) {
    a.(closed := b.closed) == b
  }

  ghost predicate DbGrows(a: Db, b: Db) {
    && SignalsEvolve(a.signals, b.signals)
    && a.nextPositionId <= b.nextPositionId
    && (a.account.Some? ==> b.account.Some?)
    && (forall k :: 0 <= k < |b.positions| && b.positions[k].id < a.nextPositionId ==>
          Kept(a.positions, b.positions[k]))
  }

  ghost predicate Kept(positions: seq<Position>, p: Position) {
    exists j :: 0 <= j < |positions| && SameRow(positions[j], p)
  }

  /** `row` was read from the table at some earlier point of the run. */
  ghost predicate Snapshot(db: Db, id: nat, row: Signal) {
    id < |db.signals| && SignalOk(row) && Evolves(row, db.signals[id])
  }

  /** `p` was read from the table at some earlier point of the run. */
  ghost predicate ReadRow(db: Db, p: Position, id: nat) {
    && p.signalId == id && p.id < db.nextPositionId
    && forall k :: 0 <= k < |db.positions| && db.positions[k].id == p.id ==> SameRow(db.positions[k], p)
  }

  ghost predicate ProcOk(db: Db, proc: Proc) {
    match proc
    case Idle => true
    case Watching(id, row) => Snapshot(db, id, row) && IsActive(row.status)
    case LostRace(_) => true
    case OpenLookup(id, row) => Snapshot(db, id, row)
    case OpenAccount(id, row) => Snapshot(db, id, row) && row.status.Open?
    case OpenCap(id, row, _) => Snapshot(db, id, row) && row.status.Open? && db.account.Some?
    case OpenCommit(id, row, _) => Snapshot(db, id, row) && row.status.Open? && db.account.Some?
    case ManualLookup(id, row) => Snapshot(db, id, row)
    case ManualPrice(id, row) => Snapshot(db, id, row)
    case CloseLookup(id, row) => Snapshot(db, id, row)
    case ClosePosition(id, row) => Snapshot(db, id, row) && HitTarget(row.status)
    case CloseAccount(id, row, p) => Snapshot(db, id, row) && HitTarget(row.status) && ReadRow(db, p, id)
    case CloseCommit(id, row, p, _) => Snapshot(db, id, row) && HitTarget(row.status) && ReadRow(db, p, id)
  }

  ghost predicate SysOk(s: Sys) {
    DbOk(s.db) && forall p :: p in s.procs ==> ProcOk(s.db, s.procs[p])
  }

  lemma GrowthKeepsProc(a: Db, b: Db, proc: Proc)
    requires DbGrows(a, b) && ProcOk(a, proc)
    ensures ProcOk(b, proc)
  {
    hide SignalOk;
    if proc.CloseAccount? || proc.CloseCommit? {
      forall k | 0 <= k < |b.positions| && b.positions[k].id == proc.position.id
        ensures SameRow(b.positions[k], proc.position)
      {
        var j :| 0 <= j < |a.positions| && SameRow(a.positions[j], b.positions[k]);
        assert a.positions[j].id == proc.position.id;
      }
    }
  }

  lemma GrowthIsReflexive(db: Db)
    ensures DbGrows(db, db)
  {
    forall k | 0 <= k < |db.positions| ensures Kept(db.positions, db.positions[k]) {
      assert SameRow(db.positions[k], db.positions[k]);
    }
  }

  /** A write that leaves the positions alone. */
  lemma GrowthByOtherRows(a: Db, b: Db)
    requires a.positions == b.positions && a.nextPositionId == b.nextPositionId
    requires SignalsEvolve(a.signals, b.signals) && (a.account.Some? ==> b.account.Some?)
    ensures DbGrows(a, b)
  {
    GrowthIsReflexive(a);
  }

  lemma GrowthByNewPosition(a: Db, b: Db, row: Position)
    requires b.positions == a.positions + [row] && row.id == a.nextPositionId && b.nextPositionId == row.id + 1
    requires a.signals == b.signals && a.account == b.account
    ensures DbGrows(a, b)
  {
    GrowthIsReflexive(a);
    forall k | 0 <= k < |b.positions| && b.positions[k].id < a.nextPositionId
      ensures Kept(a.positions, b.positions[k])
    {
      assert b.positions[k] == a.positions[k];
    }
  }

  lemma GrowthByClosing(a: Db, b: Db, id: nat)
    requires b.positions == MarkClosed(a.positions, id) && b.nextPositionId == a.nextPositionId
    requires a.signals == b.signals && (a.account.Some? ==> b.account.Some?)
    ensures DbGrows(a, b)
  {
    forall k | 0 <= k < |b.positions| ensures Kept(a.positions, b.positions[k]) {
      assert SameRow(a.positions[k], b.positions[k]);
    }
  }

  // --- One action -----------------------------------------------------------

  /** A move is fine when it keeps the rows sound, only grows them, and leaves the
      moving daemon with rows it has really read. */
  ghost predicate MoveOk(db: Db, moved: (Db, Proc)) {
    DbOk(moved.0) && DbGrows(db, moved.0) && ProcOk(moved.0, moved.1)
  }

  lemma TransitionMove(db: Db, id: nat, to: Status, price: Option<real>)
    requires DbOk(db) && TransitionSignal(db, id, to, price).Success?
    ensures
      var (next, row) := TransitionSignal(db, id, to, price).value;
      DbOk(next) && DbGrows(db, next) && Snapshot(next, id, row) && row == next.signals[id]
  {
    hide PositionsOk, TradesOk, BalanceOk;
    TransitionKeeps(db, id, to, price);
    var (next, row) := TransitionSignal(db, id, to, price).value;
    assert next.signals[id] == row;
    GrowthByOtherRows(db, next);
  }

  lemma ConfirmKeeps(db: Db, id: nat, row: Signal, high: real, low: real)
    requires DbOk(db) && Snapshot(db, id, row)
    ensures MoveOk(db, ConfirmStep(db, id, row, high, low))
  {
    hide DbOk, DbGrows;
    GrowthIsReflexive(db);
    if row.status.PendingEntry? {
      if TransitionSignal(db, id, Open, None).Success? {
        TransitionMove(db, id, Open, None);
      }
    } else {
      var tp, sl := Some(row.levels.takeProfit), Some(row.levels.stopLoss);
      if TransitionSignal(db, id, TpHit, tp).Success? {
        TransitionMove(db, id, TpHit, tp);
      }
      if TransitionSignal(db, id, SlHit, sl).Success? {
        TransitionMove(db, id, SlHit, sl);
      }
    }
  }

  lemma ManualKeeps(db: Db, id: nat, row: Signal, price: Option<real>)
    requires DbOk(db) && Snapshot(db, id, row)
    ensures MoveOk(db, ManualStep(db, id, row, price))
  {
    hide DbOk, DbGrows;
    GrowthIsReflexive(db);
    if price.Some? && TransitionSignal(db, id, ManualTarget(row, price.value), price).Success? {
      TransitionMove(db, id, ManualTarget(row, price.value), price);
    }
  }

  lemma EnsureAccountMove(db: Db, cfg: DemoConfig)
    requires DbOk(db) && EnsureAccount(db, cfg).Success?
    ensures
      var (next, row) := EnsureAccount(db, cfg).value;
      DbOk(next) && DbGrows(db, next) && next.account == Some(row)
  {
    hide DbOk;
    EnsureAccountKeeps(db, cfg);
    GrowthByOtherRows(db, EnsureAccount(db, cfg).value.0);
  }

  lemma CommitOpenKeeps(db: Db, id: nat, row: Signal, account: Account, cfg: DemoConfig)
    requires DbOk(db) && Snapshot(db, id, row) && row.status.Open? && db.account.Some?
    ensures DbOk(CommitOpen(db, id, row, account, cfg)) && DbGrows(db, CommitOpen(db, id, row, account, cfg))
  {
    hide SizePosition, DbOk;
    GrowthIsReflexive(db);
    var sized := SizePosition(account, row.levels, cfg.slippageBps);
    if sized.Success? {
      var z := sized.value;
      var r := CreatePosition(db, id, row.symbol, row.levels.direction, z.entryPrice, z.quantity, z.positionSize,
                              account.margin, account.leverage, row.levels.stopLoss, row.levels.takeProfit);
      if r.Success? {
        CreatePositionKeeps(db, id, z.entryPrice, z.quantity, z.positionSize, account.margin, account.leverage);
        if r.value.0 != db {
          GrowthByNewPosition(db, r.value.0, r.value.1);
        }
      }
    }
  }

  lemma CommitCloseKeeps(db: Db, id: nat, row: Signal, p: Position, account: Account, cfg: DemoConfig)
    requires DbOk(db) && Snapshot(db, id, row) && HitTarget(row.status) && ReadRow(db, p, id)
    ensures DbOk(CommitClose(db, id, row, p, account, cfg)) && DbGrows(db, CommitClose(db, id, row, p, account, cfg))
  {
    hide SettleNumbers, DbOk;
    GrowthIsReflexive(db);
    var settled := SettleNumbers(p, row, account.feeRate, cfg.slippageBps);
    if settled.Success? {
      var r := RecordTrade(db, p, id, row.levels.direction, settled.value);
      if r.Success? {
        assert db.signals[id] == row;
        RecordTradeKeeps(db, p, id, settled.value);
        GrowthByClosing(db, r.value.0, p.id);
      }
    }
  }

  /** A row found by a lookup is one the daemon has really read. */
  lemma FoundRowIsRead(db: Db, id: nat)
    requires PositionsOk(db) && PositionFor(db.positions, id).Some?
    ensures ReadRow(db, PositionFor(db.positions, id).value, id)
  {
    var p := PositionFor(db.positions, id).value;
    var at :| 0 <= at < |db.positions| && db.positions[at] == p;
  }

  lemma AdvanceKeeps(db: Db, proc: Proc, cfg: DemoConfig)
    requires DbOk(db) && ProcOk(db, proc)
    ensures MoveOk(db, AdvanceStep(db, proc, cfg))
  {
    hide DbGrows, CommitOpen, CommitClose, EnsureAccount, PositionFor, ReadRow, PositionsOk, TradesOk, BalanceOk;
    GrowthIsReflexive(db);
    match proc {
      case Idle =>
      case Watching(_, _) =>
      case LostRace(symbol) =>
      case OpenLookup(id, row) =>
      case OpenAccount(id, row) => AccountStepKeeps(db, proc, cfg);
      case OpenCap(id, row, account) =>
      case OpenCommit(id, row, account) => CommitOpenKeeps(db, id, row, account, cfg);
      case ManualLookup(id, row) =>
      case ManualPrice(id, row) =>
      case CloseLookup(id, row) =>
      case ClosePosition(id, row) =>
        if PositionFor(db.positions, id).Some? {
          FoundRowIsRead(db, id);
        }
      case CloseAccount(id, row, p) => AccountStepKeeps(db, proc, cfg);
      case CloseCommit(id, row, p, account) => CommitCloseKeeps(db, id, row, p, account, cfg);
    }
  }

  lemma AccountStepKeeps(db: Db, proc: Proc, cfg: DemoConfig)
    requires DbOk(db) && ProcOk(db, proc) && (proc.OpenAccount? || proc.CloseAccount?)
    ensures MoveOk(db, AdvanceStep(db, proc, cfg))
  {
    hide DbOk, DbGrows, EnsureAccount, Snapshot, ReadRow;
    GrowthIsReflexive(db);
    if EnsureAccount(db, cfg).Success? {
      EnsureAccountMove(db, cfg);
      GrowthKeepsProc(db, EnsureAccount(db, cfg).value.0, proc);
    }
  }

  lemma PutKeeps(s: Sys, p: nat, moved: (Db, Proc))
    requires SysOk(s) && MoveOk(s.db, moved)
    ensures SysOk(Put(s, p, moved)) && DbGrows(s.db, Put(s, p, moved).db)
  {
    hide DbOk, DbGrows, ProcOk;
    forall q | q in s.procs ensures ProcOk(moved.0, s.procs[q]) {
      GrowthKeepsProc(s.db, moved.0, s.procs[q]);
    }
  }

  lemma WriteKeeps(s: Sys, db: Db)
    requires SysOk(s) && DbOk(db) && DbGrows(s.db, db)
    ensures SysOk(s.(db := db))
  {
    hide DbOk, DbGrows, ProcOk;
    forall q | q in s.procs ensures ProcOk(db, s.procs[q]) {
      GrowthKeepsProc(s.db, db, s.procs[q]);
    }
  }

  lemma DirectWriteKeeps(s: Sys, a: Action)
    requires SysOk(s) && (a.Create? || a.Cancel? || a.Reset? || a.Configure? || a.Bootstrap?)
    ensures SysOk(Do(s, a)) && DbGrows(s.db, Do(s, a).db)
  {
    hide PositionsOk, TradesOk, BalanceOk, ProcOk;
    GrowthIsReflexive(s.db);
    if Do(s, a) != s {
      var db := Do(s, a).db;
      match a {
        case Create(symbol, levels, marketTs) =>
          CreateSignalKeeps(s.db, symbol, levels, marketTs);
          GrowthByOtherRows(s.db, db);
        case Cancel(id) => TransitionMove(s.db, id, Cancelled, None);
        case Reset(initial) => ResetKeeps(s.db, initial);
        case Configure(margin, leverage, riskPercent, feeRate) =>
          UpdateConfigKeeps(s.db, margin, leverage, riskPercent, feeRate);
          GrowthByOtherRows(s.db, db);
        case Bootstrap(cfg) => EnsureAccountMove(s.db, cfg);
      }
      WriteKeeps(s, db);
    }
  }

  /** INDUCTIVE STEP: every action of every daemon and of the dashboard keeps the ledger
      sound, the manual close at any market price included. */
  lemma DoKeeps(s: Sys, a: Action)
    requires SysOk(s)
    ensures SysOk(Do(s, a)) && DbGrows(s.db, Do(s, a).db)
  {
    hide DbOk, DbGrows, ConfirmStep, ManualStep, AdvanceStep, Put;
    GrowthIsReflexive(s.db);
    match a {
      case Create(_, _, _) => DirectWriteKeeps(s, a);
      case Cancel(_) => DirectWriteKeeps(s, a);
      case Reset(_) => DirectWriteKeeps(s, a);
      case Configure(_, _, _, _) => DirectWriteKeeps(s, a);
      case Bootstrap(_) => DirectWriteKeeps(s, a);
      case Confirm(p, high, low) =>
        if ProcAt(s, p).Watching? {
          ConfirmKeeps(s.db, ProcAt(s, p).id, ProcAt(s, p).row, high, low);
          PutKeeps(s, p, ConfirmStep(s.db, ProcAt(s, p).id, ProcAt(s, p).row, high, low));
        }
      case Advance(p, cfg) =>
        AdvanceKeeps(s.db, ProcAt(s, p), cfg);
        PutKeeps(s, p, AdvanceStep(s.db, ProcAt(s, p), cfg));
      case Crash(p) => PutKeeps(s, p, (s.db, Idle));
      case Watch(p, symbol) =>
        var found := ActiveSignal(s.db.signals, symbol, 0);
        if ProcAt(s, p).Idle? && found.Some? {
          ReadSignalMove(s.db, found.value);
          PutKeeps(s, p, (s.db, Watching(found.value, s.db.signals[found.value])));
        }
      case BeginOpen(p, id) =>
        if ProcAt(s, p).Idle? && id < |s.db.signals| {
          ReadSignalMove(s.db, id);
          PutKeeps(s, p, (s.db, OpenLookup(id, s.db.signals[id])));
        }
      case BeginManual(p, id) =>
        if ProcAt(s, p).Idle? && id < |s.db.signals| && s.db.signals[id].status.Open? {
          ReadSignalMove(s.db, id);
          PutKeeps(s, p, (s.db, ManualLookup(id, s.db.signals[id])));
        }
      case Price(p, price) =>
        if ProcAt(s, p).ManualPrice? {
          ManualKeeps(s.db, ProcAt(s, p).id, ProcAt(s, p).row, price);
          PutKeeps(s, p, ManualStep(s.db, ProcAt(s, p).id, ProcAt(s, p).row, price));
        }
      case BeginClose(p, id) =>
        if ProcAt(s, p).Idle? && id < |s.db.signals| {
          ReadSignalMove(s.db, id);
          PutKeeps(s, p, (s.db, CloseLookup(id, s.db.signals[id])));
        }
    }
  }

  lemma ReadSignalMove(db: Db, id: nat)
    requires DbOk(db) && id < |db.signals|
    ensures Snapshot(db, id, db.signals[id])
  {
    hide PositionsOk, TradesOk, BalanceOk;
  }

  lemma {:induction false} RunsStaySafe(acts: seq<Action>)
    ensures SysOk(Exec(acts))
  {
    hide DbOk, Do;
    if acts == [] {
      EmptyIsSafe();
    } else {
      RunsStaySafe(acts[..|acts| - 1]);
      DoKeeps(Exec(acts[..|acts| - 1]), acts[|acts| - 1]);
    }
  }

  lemma EmptyIsSafe()
    ensures DbOk(EMPTY_DB)
  {
  }
}
