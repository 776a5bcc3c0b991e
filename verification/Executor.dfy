/** The demo executor (demo/executor.py): opening, closing and reconciling positions
    step by step against the shared database. */
module Executor {
  import opened Common
  import opened DemoAccount
  import opened Ledger
  import opened Store
  import Recovery

  /** The same rows, or those with nothing but the account row created. */
  ghost predicate MaybeFunded(before: Db, after: Db, cfg: DemoConfig) {
    || after == before
    || (Ledger.EnsureAccount(before, cfg).Success? && after == Ledger.EnsureAccount(before, cfg).value.0)
  }

  /** When `spec` succeeds the call succeeds with its result and rows; when it raises so
      does the call, with nothing but the account row possibly created. */
  ghost predicate Ran<T>(before: Db, after: Db, r: Tx<T>, spec: Tx<(Db, T)>, cfg: DemoConfig) {
    match spec
    case Success(v) => r == Success(v.1) && after == v.0
    case Failure(e) => r == Failure(e) && MaybeFunded(before, after, cfg)
  }

  /** A settling pass that raised at position `k`: every earlier position is settled and
      committed, the later ones are untouched. */
  ghost predicate StoppedAt(before: Db, after: Db, cfg: DemoConfig, listed: seq<Position>, k: nat) {
    && k < |listed| && Recovery.SettleRows(before, cfg, listed[..k]).Success?
    && var reached := Recovery.SettleRows(before, cfg, listed[..k]).value.0;
       Recovery.SettleRow(reached, cfg, listed[k]).Failure? && MaybeFunded(reached, after, cfg)
  }

  /** What a repair pass that raised leaves: the rows of the step that raised. */
  ghost predicate RepairStopped(before: Db, after: Db, cfg: DemoConfig, active: Option<nat>)
    requires active.Some? ==> active.value < |before.signals|
  {
    match Ledger.EnsureAccount(before, cfg)
    case Failure(_) => after == before
    case Success(ready) =>
      match Recovery.Begun(before, cfg, active)
      case Failure(_) => after == ready.0
      case Success(made) => exists k: nat :: StoppedAt(made.0, after, cfg, made.0.positions, k)
  }

  datatype Repaired = Repaired(positions: nat, trades: nat)

  class DemoExecutor {
    const db: Database
    const config: DemoConfig

    constructor (db: Database, config: DemoConfig)
      ensures this.db == db && this.config == config
    {
      this.db, this.config := db, config;
    }

    method OpenPosition(id: nat, row: Signal) returns (r: Tx<Option<Position>>)
      modifies db
      ensures Ran(old(db.Rows()), db.Rows(), r, Recovery.OpenPosition(old(db.Rows()), config, id, row), config)
    {
      hide ResolveQuantity, FilledEntry;
      if !row.status.Open? {
        return Success(None);
      }
      var existing := db.PositionForSignal(id);
      if existing.Some? {
        return Success(existing);
      }
      var ready := db.EnsureAccount(config);
      if ready.Failure? {
        return Failure(ready.error);
      }
      var a := ready.value;
      if a.balance < a.margin {
        return Success(None);
      }
      var count := db.CountOpenPositions();
      if count >= MAX_OPEN_POSITIONS {
        return Success(None);
      }
      var sized := SizePosition(a, row.levels, config.slippageBps);
      if sized.Failure? {
        return Failure(Calculation(sized.error));
      }
      var z := sized.value;
      var made := db.CreatePosition(id, row.symbol, row.levels.direction, z.entryPrice, z.quantity, z.positionSize,
                                    a.margin, a.leverage, row.levels.stopLoss, row.levels.takeProfit);
      if made.Failure? {
        return Failure(made.error);
      }
      return Success(Some(made.value));
    }

    method ClosePosition(id: nat, row: Signal) returns (r: Tx<Option<Trade>>)
      modifies db
      ensures Ran(old(db.Rows()), db.Rows(), r, Recovery.ClosePosition(old(db.Rows()), config, id, row), config)
    {
      hide SettleNumbers;
      if !(row.status.TpHit? || row.status.SlHit?) {
        return Success(None);
      }
      var existing := db.TradeForSignal(id);
      if existing.Some? {
        return Success(existing);
      }
      var found := db.PositionForSignal(id);
      if found.None? {
        return Success(None);
      }
      var ready := db.EnsureAccount(config);
      if ready.Failure? {
        return Failure(ready.error);
      }
      var settled := SettleNumbers(found.value, row, ready.value.feeRate, config.slippageBps);
      if settled.Failure? {
        return Failure(Calculation(settled.error));
      }
      var done := db.RecordTrade(found.value, id, row.levels.direction, settled.value);
      if done.Failure? {
        return Failure(done.error);
      }
      return Success(Some(done.value));
    }

    /** One listed position: settle it if its signal hit a target and has no trade yet. */
    method SettleListed(row: Position) returns (r: Tx<nat>)
      modifies db
      ensures Ran(old(db.Rows()), db.Rows(), r, Recovery.SettleRow(old(db.Rows()), config, row), config)
    {
      hide Ledger.EnsureAccount, Recovery.ClosePosition;
      if row.signalId >= |db.signals| || !HitTarget(db.signals[row.signalId].status) {
        return Success(0);
      }
      var traded := db.TradeForSignal(row.signalId);
      if traded.Some? {
        return Success(0);
      }
      var closed := ClosePosition(row.signalId, db.signals[row.signalId]);
      if closed.Failure? {
        return Failure(closed.error);
      }
      return Success(if closed.value.Some? then 1 else 0);
    }

    method SettleListing(listed: seq<Position>) returns (r: Tx<nat>)
      modifies db
      ensures
        match Recovery.SettleRows(old(db.Rows()), config, listed)
        case Success(v) => r == Success(v.1) && db.Rows() == v.0
        case Failure(e) => r == Failure(e) && exists k: nat :: StoppedAt(old(db.Rows()), db.Rows(), config, listed, k)
    {
      hide Recovery.SettleRow, MaybeFunded;
      ghost var begun := db.Rows();
      var recovered := 0;
      var i := 0;
      while i < |listed|
        invariant 0 <= i <= |listed|
        invariant Recovery.SettleRows(begun, config, listed[..i]) == Success((db.Rows(), recovered))
      {
        assert listed[..i + 1][..i] == listed[..i];
        var settled := SettleListed(listed[i]);
        if settled.Failure? {
          assert StoppedAt(begun, db.Rows(), config, listed, i);
          SettleRowsFailsWithItsPrefix(begun, config, listed, i + 1);
          return Failure(settled.error);
        }
        recovered := recovered + settled.value;
        i := i + 1;
      }
      assert listed[..|listed|] == listed;
      return Success(recovered);
    }

    /** The startup repair pass: the active signal's position first, then every listed
        position in id order. */
    method Reconcile(active: Option<nat>) returns (r: Tx<Repaired>)
      requires active.Some? ==> active.value < |db.signals|
      modifies db
      ensures
        match Recovery.Reconcile(old(db.Rows()), config, active)
        case Success(v) => r == Success(Repaired(v.1, v.2)) && db.Rows() == v.0
        case Failure(e) => r == Failure(e) && RepairStopped(old(db.Rows()), db.Rows(), config, active)
    {
      hide Ledger.EnsureAccount, Recovery.OpenPosition, Recovery.SettleRows, StoppedAt;
      var recoveredPositions := 0;
      var ready := db.EnsureAccount(config);
      if ready.Failure? {
        return Failure(ready.error);
      }
      if active.Some? {
        EnsuringIsDone(old(db.Rows()), config);
        var opening := OpenPosition(active.value, db.signals[active.value]);
        if opening.Failure? {
          return Failure(opening.error);
        }
        if opening.value.Some? {
          recoveredPositions := 1;
        }
      }
      ghost var made := db.Rows();
      ghost var opening := Recovery.Begun(old(db.Rows()), config, active);
      assert opening.Success? && opening.value.0 == made;
      var settled := SettleListing(db.positions);
      if settled.Failure? {
        return Failure(settled.error);
      }
      return Success(Repaired(recoveredPositions, settled.value));
    }
  }

  /** Ensuring the account leaves the signals, and doing it again changes nothing. */
  lemma EnsuringIsDone(db: Db, cfg: DemoConfig)
    requires Ledger.EnsureAccount(db, cfg).Success?
    ensures
      var ready := Ledger.EnsureAccount(db, cfg).value.0;
      && ready.signals == db.signals
      && Ledger.EnsureAccount(ready, cfg).Success? && Ledger.EnsureAccount(ready, cfg).value.0 == ready
  {
  }

  /** An exception while settling a prefix is the exception of the whole pass. */
  lemma {:induction false} SettleRowsFailsWithItsPrefix(db: Db, cfg: DemoConfig, rows: seq<Position>, k: nat)
    requires k <= |rows| && Recovery.SettleRows(db, cfg, rows[..k]).Failure?
    ensures Recovery.SettleRows(db, cfg, rows) == Recovery.SettleRows(db, cfg, rows[..k])
    decreases |rows|
  {
    hide Recovery.SettleRow;
    if k == |rows| {
      assert rows[..k] == rows;
    } else {
      var front := rows[..|rows| - 1];
      assert front[..k] == rows[..k];
      SettleRowsFailsWithItsPrefix(db, cfg, front, k);
    }
  }
}
