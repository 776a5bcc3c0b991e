/** What the executor's numbers mean: how a position is sized, how a trade settles, and
    what the repair counters count. */
module ExecutorLaws {
  import opened Common
  import opened DemoAccount
  import opened Ledger
  import LedgerInvariant
  import R = Recovery

  /** The fill is never better than the signal's entry. */
  predicate AdverseEntry(l: Levels, price: real) {
    if l.direction.Long? then price >= l.entry else price <= l.entry
  }

  predicate AdverseExit(d: Direction, level: real, price: real) {
    if d.Long? then price <= level else price >= level
  }

  /** SIZING: the position's quantity is the greatest one whose notional at the adverse
      fill stays within margin times leverage and whose loss at the stop stays within the
      risked share of the balance that was read. */
  lemma PositionIsGreatestWithinCaps(a: Account, l: Levels, cfg: DemoConfig, q: real)
    requires R.Operable(cfg) && Ordered(l) && PositiveLevels(l)
    requires a.balance >= a.margin > 0.0 && a.leverage >= 1 && a.riskPercent > 0.0
    ensures SizePosition(a, l, cfg.slippageBps).Success?
    ensures
      var z := SizePosition(a, l, cfg.slippageBps).value;
      && AdverseEntry(l, z.entryPrice) && z.positionSize == z.quantity * z.entryPrice
      && (q <= z.quantity <==> q * z.entryPrice <= a.margin * a.leverage as real
                               && q * Abs(z.entryPrice - l.stopLoss) <= a.balance * a.riskPercent / 100.0)
  {
    var entry := FilledEntry(l, cfg.slippageBps);
    EntryIsSizable(a, l, cfg);
    AdverseFill(l, cfg);
    hide ResolveQuantity, FilledEntry, AdverseEntry, Sizable, Abs;
    QuantityIsGreatestWithinBothCaps(a.balance, a.margin, a.leverage, a.riskPercent, entry, l.stopLoss, q);
  }

  lemma EntryIsSizable(a: Account, l: Levels, cfg: DemoConfig)
    requires R.Operable(cfg) && Ordered(l) && PositiveLevels(l)
    requires a.balance >= a.margin > 0.0 && a.leverage >= 1 && a.riskPercent > 0.0
    ensures Sizable(a.balance, a.margin, a.leverage, a.riskPercent, FilledEntry(l, cfg.slippageBps), l.stopLoss)
  {
    hide FilledEntry;
    R.FilledEntryClearsTheStop(l, cfg);
  }

  lemma AdverseFill(l: Levels, cfg: DemoConfig)
    requires R.Operable(cfg) && l.entry > 0.0
    ensures AdverseEntry(l, FilledEntry(l, cfg.slippageBps))
  {
    AdverseFillAt(l, cfg.slippageBps);
  }

  lemma AdverseFillAt(l: Levels, bps: real)
    requires 0.0 <= bps < 10000.0 && l.entry > 0.0
    ensures FilledEntry(l, bps) > 0.0 && AdverseEntry(l, FilledEntry(l, bps))
  {
    R.SlippageStaysPositive(bps, l.direction, true);
    R.ScaledPrice(SlippageFactor(bps, l.direction, true), l.entry, FilledEntry(l, bps));
  }

  function CloseLevel(p: Position, s: Signal): real {
    if s.closePrice.Some? then s.closePrice.value else if s.status.TpHit? then p.takeProfit else p.stopLoss
  }

  /** SETTLING: gross is the move in the trade's direction times the quantity, net is
      gross less the fee on both notionals, the exit is never better than the level, and a
      WIN is exactly a positive net. */
  lemma SettlementAddsUp(p: Position, s: Signal, feeRate: real, slippageBps: real)
    requires 0.0 <= slippageBps < 10000.0 && CloseLevel(p, s) > 0.0
    requires SettleNumbers(p, s, feeRate, slippageBps).Success?
    ensures
      var (n, d) := (SettleNumbers(p, s, feeRate, slippageBps).value, s.levels.direction);
      && AdverseExit(d, CloseLevel(p, s), n.exitPrice)
      && n.grossPnl == (if d.Long? then n.exitPrice - p.entryPrice else p.entryPrice - n.exitPrice) * p.quantity
      && n.fee == p.positionSize * feeRate + n.exitPrice * p.quantity * feeRate
      && n.netPnl == n.grossPnl - n.fee && (n.won <==> n.netPnl > 0.0)
  {
    var (level, d) := (CloseLevel(p, s), s.levels.direction);
    ExitFactor(slippageBps, d);
    var f := SlippageFactor(slippageBps, d, false);
    R.ScaledPrice(f, level, level * f);
    hide SlippageFactor;
  }

  lemma ExitIsPositive(p: Position, s: Signal, feeRate: real, slippageBps: real)
    requires 0.0 <= slippageBps < 10000.0 && CloseLevel(p, s) > 0.0
    requires SettleNumbers(p, s, feeRate, slippageBps).Success?
    ensures SettleNumbers(p, s, feeRate, slippageBps).value.exitPrice > 0.0
  {
    var f := SlippageFactor(slippageBps, s.levels.direction, false);
    ExitFactor(slippageBps, s.levels.direction);
    R.ScaledPrice(f, CloseLevel(p, s), CloseLevel(p, s) * f);
    hide SlippageFactor;
  }

  lemma ExitFactor(bps: real, d: Direction)
    requires 0.0 <= bps < 10000.0
    ensures SlippageFactor(bps, d, false) > 0.0
    ensures d.Long? ==> SlippageFactor(bps, d, false) <= 1.0
    ensures d.Short? ==> SlippageFactor(bps, d, false) >= 1.0
  {
    R.SlippageStaysPositive(bps, d, false);
  }

  /** A position entered at the signal's entry and closed without slippage wins gross at
      the target and loses gross at the stop. */
  lemma TargetGainsStopLoses(p: Position, s: Signal, feeRate: real)
    requires Ordered(s.levels) && PositiveLevels(s.levels) && p.quantity > 0.0 && p.entryPrice == s.levels.entry
    requires s.closePrice == Some(if s.status.TpHit? then s.levels.takeProfit else s.levels.stopLoss)
    requires SettleNumbers(p, s, feeRate, 0.0).Success?
    ensures
      var n := SettleNumbers(p, s, feeRate, 0.0).value;
      && n.exitPrice == s.closePrice.value
      && (s.status.TpHit? <==> n.grossPnl > 0.0) && (!s.status.TpHit? <==> n.grossPnl < 0.0)
  {
    SettlementAddsUp(p, s, feeRate, 0.0);
    var (n, d) := (SettleNumbers(p, s, feeRate, 0.0).value, s.levels.direction);
    var move := if d.Long? then n.exitPrice - p.entryPrice else p.entryPrice - n.exitPrice;
    assert n.exitPrice == s.closePrice.value;
    hide SettleNumbers;
    if move > 0.0 {
      MulStrict(0.0, move, p.quantity);
    } else {
      MulStrict(move, 0.0, p.quantity);
    }
  }

  /** COUNTERS: the repair pass reports exactly the trades it added. */
  lemma RecoveredTradesAreCounted(db: Db, cfg: DemoConfig, active: Option<nat>)
    requires active.Some? ==> active.value < |db.signals|
    requires R.Reconcile(db, cfg, active).Success?
    ensures
      var (after, _, n) := R.Reconcile(db, cfg, active).value;
      |after.trades| == |db.trades| + n && after.trades[..|db.trades|] == db.trades
  {
    hide R.SettleRows, R.Begun;
    BeginningBooksNothing(db, cfg, active);
    var begun := R.Begun(db, cfg, active).value.0;
    SettledTradesAreCounted(begun, cfg, begun.positions);
  }

  lemma BeginningBooksNothing(db: Db, cfg: DemoConfig, active: Option<nat>)
    requires active.Some? ==> active.value < |db.signals|
    requires R.Begun(db, cfg, active).Success?
    ensures R.Begun(db, cfg, active).value.0.trades == db.trades
  {
    hide SizePosition;
  }

  lemma {:induction false} SettledTradesAreCounted(db: Db, cfg: DemoConfig, rows: seq<Position>)
    requires R.SettleRows(db, cfg, rows).Success?
    ensures
      var (after, n) := R.SettleRows(db, cfg, rows).value;
      |after.trades| == |db.trades| + n && after.trades[..|db.trades|] == db.trades
  {
    if rows == [] {
      assert db.trades[..|db.trades|] == db.trades;
    } else {
      var front := R.SettleRows(db, cfg, rows[..|rows| - 1]).value.0;
      SettledTradesAreCounted(db, cfg, rows[..|rows| - 1]);
      OneRowIsCounted(front, cfg, rows[|rows| - 1]);
      hide R.SettleRow;
      var after := R.SettleRows(db, cfg, rows).value.0;
      assert after.trades[..|db.trades|] == after.trades[..|front.trades|][..|db.trades|];
    }
  }

  lemma OneRowIsCounted(db: Db, cfg: DemoConfig, row: Position)
    requires R.SettleRow(db, cfg, row).Success?
    ensures
      var (after, n) := R.SettleRow(db, cfg, row).value;
      |after.trades| == |db.trades| + n && after.trades[..|db.trades|] == db.trades
  {
    hide SettleNumbers;
  }

  // --- The other counter ------------------------------------------------------------

  lemma {:induction false} SettlingKeepsTheRows(db: Db, cfg: DemoConfig, rows: seq<Position>)
    requires R.SettleRows(db, cfg, rows).Success?
    ensures |R.SettleRows(db, cfg, rows).value.0.positions| == |db.positions|
  {
    if rows != [] {
      SettlingKeepsTheRows(db, cfg, rows[..|rows| - 1]);
      OneRowKeepsTheRows(R.SettleRows(db, cfg, rows[..|rows| - 1]).value.0, cfg, rows[|rows| - 1]);
      hide R.SettleRow;
    }
  }

  lemma OneRowKeepsTheRows(db: Db, cfg: DemoConfig, row: Position)
    requires R.SettleRow(db, cfg, row).Success?
    ensures |R.SettleRow(db, cfg, row).value.0.positions| == |db.positions|
  {
    hide SettleNumbers;
  }

  /** The active signal is OPEN and its position is already in the table. */
  predicate AlreadyOpened(db: Db, active: Option<nat>)
    requires active.Some? ==> active.value < |db.signals|
  {
    active.Some? && db.signals[active.value].status.Open? && PositionFor(db.positions, active.value).Some?
  }

  lemma OpeningAnswers(db: Db, cfg: DemoConfig, id: nat)
    requires id < |db.signals| && R.OpenPosition(db, cfg, id, db.signals[id]).Success?
    ensures
      var (after, p) := R.OpenPosition(db, cfg, id, db.signals[id]).value;
      && |after.positions| == |db.positions| + (if p.Some? && !AlreadyOpened(db, Some(id)) then 1 else 0)
      && (AlreadyOpened(db, Some(id)) ==> p.Some?)
  {
    hide SizePosition;
  }

  /** COUNTERS: the pass reports as many recovered positions as it added rows if and only if
      the active signal's position was not already there; then it reports one, and adds none. */
  lemma RecoveredPositionsAreCountedExactlyWhen(db: Db, cfg: DemoConfig, active: Option<nat>)
    requires LedgerInvariant.DbOk(db) && R.Operable(cfg) && (active.Some? ==> active.value < |db.signals|)
    ensures R.Reconcile(db, cfg, active).Success?
    ensures
      var (r, n, _) := R.Reconcile(db, cfg, active).value;
      && (n == |r.positions| - |db.positions| <==> !AlreadyOpened(db, active))
      && (AlreadyOpened(db, active) ==> n == 1 && |r.positions| == |db.positions|)
  {
    hide LedgerInvariant.DbOk, R.OpenPosition, R.SettleRows, EnsureAccount;
    R.ReconcileRepairs(db, cfg, active);
    R.AccountIsReady(db, cfg);
    var ready := EnsureAccount(db, cfg).value.0;
    if active.Some? {
      R.OpenPositionKeeps(ready, cfg, active.value);
      OpeningAnswers(ready, cfg, active.value);
    }
    var begun := R.Begun(db, cfg, active).value.0;
    SettlingKeepsTheRows(begun, cfg, begun.positions);
  }

  /** One OPEN signal with its position: a pass that changes no row reports one recovered. */
  lemma ExistingPositionCountsAsRecovered()
    ensures
      var s := Signal("BTCUSDT", Levels(Long, 100.0, 90.0, 120.0), Open, true, None, None);
      var a := Account(1000.0, 1000.0, 1000.0, 1000.0, 10.0, 10, 1.0, 0.001);
      var p := Position(0, 0, "BTCUSDT", Long, 100.0, 1.0, 100.0, 10.0, 10, 90.0, 120.0, false);
      var db := Db([s], Some(a), [p], [], 1, 0);
      var cfg := DemoConfig(1000.0, 10.0, 10, 1.0, 0.001, 0.0);
      R.Reconcile(db, cfg, Some(0)) == Success((db, 1, 0))
  {
    var s := Signal("BTCUSDT", Levels(Long, 100.0, 90.0, 120.0), Open, true, None, None);
    var a := Account(1000.0, 1000.0, 1000.0, 1000.0, 10.0, 10, 1.0, 0.001);
    var p := Position(0, 0, "BTCUSDT", Long, 100.0, 1.0, 100.0, 10.0, 10, 90.0, 120.0, false);
    var db := Db([s], Some(a), [p], [], 1, 0);
    var cfg := DemoConfig(1000.0, 10.0, 10, 1.0, 0.001, 0.0);
    R.SettledRowsAreLeftAlone(db, cfg, [p]);
    assert R.OpenPosition(db, cfg, 0, s) == Success((db, Some(p)));
  }
}
