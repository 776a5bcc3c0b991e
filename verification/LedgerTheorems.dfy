/** What holds in every state any interleaving of daemons can reach. */
module LedgerTheorems {
  import opened Common
  import opened DemoAccount
  import opened Ledger
  import opened LedgerInvariant
  import opened Daemons
  import opened LedgerSafety

  /** No balance update is ever lost, and the peak is the highest balance since
      creation or reset. */
  lemma BalanceAlwaysAddsUp(acts: seq<Action>)
    requires Exec(acts).db.account.Some?
    ensures
      var db := Exec(acts).db;
      var a := db.account.value;
      && a.balance == a.equity == a.initialBalance + SumNet(db.trades)
      && (exists k :: 0 <= k <= |db.trades| && a.peakEquity == a.initialBalance + SumNet(db.trades[..k]))
      && (forall k :: 0 <= k <= |db.trades| ==> a.initialBalance + SumNet(db.trades[..k]) <= a.peakEquity)
  {
    hide Exec, SignalsOk, PositionsOk, TradesOk, PeakBalance;
    RunsStaySafe(acts);
    PeakIsMaximumOfBalances(Exec(acts).db.account.value.initialBalance, Exec(acts).db.trades);
  }

  /** One position and one trade per signal at most; a position is CLOSED exactly when
      its signal has a trade; and only a TP/SL signal with a position is ever traded. */
  lemma PositionsAndTradesMatch(acts: seq<Action>)
    ensures
      var db := Exec(acts).db;
      && (forall i, j :: 0 <= i < j < |db.positions| ==> db.positions[i].signalId != db.positions[j].signalId)
      && (forall i, j :: 0 <= i < j < |db.trades| ==> db.trades[i].signalId != db.trades[j].signalId)
      && (forall k :: 0 <= k < |db.positions| ==>
            (db.positions[k].closed <==> Traded(db.trades, db.positions[k].signalId)))
      && (forall i :: 0 <= i < |db.trades| ==>
            HasClosedRow(db.positions, db.trades[i]) && TradeOk(db.trades[i], db.signals))
  {
    hide Exec, SignalsOk, BalanceOk, TradeOk;
    RunsStaySafe(acts);
    var db := Exec(acts).db;
    forall k | 0 <= k < |db.positions| && Traded(db.trades, db.positions[k].signalId) ensures db.positions[k].closed {
      var i :| 0 <= i < |db.trades| && db.trades[i].signalId == db.positions[k].signalId;
      assert HasClosedRow(db.positions, db.trades[i]);
    }
  }

  /** At most one PENDING_ENTRY or OPEN signal per symbol, with strictly ordered levels. */
  lemma OneActiveSignalPerSymbol(acts: seq<Action>)
    ensures
      var signals := Exec(acts).db.signals;
      && OneActivePerSymbol(signals)
      && forall i :: 0 <= i < |signals| ==> Ordered(signals[i].levels) && PositiveLevels(signals[i].levels)
  {
    hide Exec, PositionsOk, TradesOk, BalanceOk;
    RunsStaySafe(acts);
  }

  /** However a run continues, levels never change and terminal rows are final. */
  lemma {:induction false} SignalsOnlyMoveForward(acts: seq<Action>, more: seq<Action>)
    ensures SignalsEvolve(Exec(acts).db.signals, Exec(acts + more).db.signals)
  {
    hide Do, Evolves, SysOk;
    if more == [] {
      assert acts + more == acts;
      RunsStaySafe(acts);
      EveryRowEvolvesToItself(Exec(acts).db.signals);
    } else {
      var front := more[..|more| - 1];
      SignalsOnlyMoveForward(acts, front);
      assert (acts + more)[..|acts + more| - 1] == acts + front;
      RunsStaySafe(acts + front);
      DoKeeps(Exec(acts + front), more[|more| - 1]);
      EvolutionIsTransitive(Exec(acts).db.signals, Exec(acts + front).db.signals, Exec(acts + more).db.signals);
    }
  }

  lemma EveryRowEvolvesToItself(signals: seq<Signal>)
    ensures SignalsEvolve(signals, signals)
  {
  }

  lemma OnlyOpenSignalsHit(s: Sys, a: Action, id: nat)
    requires id < |Do(s, a).db.signals| && HitTarget(Do(s, a).db.signals[id].status)
    ensures id < |s.db.signals| && (HitTarget(s.db.signals[id].status) || s.db.signals[id].status.Open?)
  {
    hide CommitOpen, CommitClose;
    match a {
      case Advance(p, cfg) => AdvanceLeavesSignals(s.db, ProcAt(s, p), cfg);
      case _ =>
    }
  }

  lemma AdvanceLeavesSignals(db: Db, proc: Proc, cfg: DemoConfig)
    ensures AdvanceStep(db, proc, cfg).0.signals == db.signals
  {
    hide SettleNumbers, SizePosition;
  }

  /** TP_HIT and SL_HIT are reached only through OPEN. */
  lemma {:induction false} HitsPassThroughOpen(acts: seq<Action>, id: nat)
    requires id < |Exec(acts).db.signals| && HitTarget(Exec(acts).db.signals[id].status)
    ensures exists k :: 0 <= k < |acts|
                        && id < |Exec(acts[..k]).db.signals| && Exec(acts[..k]).db.signals[id].status.Open?
  {
    hide Do;
    var n := |acts| - 1;
    OnlyOpenSignalsHit(Exec(acts[..n]), acts[n], id);
    if HitTarget(Exec(acts[..n]).db.signals[id].status) {
      HitsPassThroughOpen(acts[..n], id);
      var k :| 0 <= k < n && id < |Exec(acts[..n][..k]).db.signals| && Exec(acts[..n][..k]).db.signals[id].status.Open?;
      assert acts[..n][..k] == acts[..k];
    }
  }

  /** Creation succeeds exactly for well-formed prices on a symbol without an active
      signal; other symbols do not matter. */
  lemma CreationSucceedsExactlyWhen(db: Db, symbol: string, levels: Levels, marketTs: Option<int>)
    ensures CreateSignal(db, symbol, levels, marketTs).Success?
       <==> PositiveLevels(levels) && Ordered(levels)
            && forall i :: 0 <= i < |db.signals| ==> !(db.signals[i].symbol == symbol && IsActive(db.signals[i].status))
  {
  }

  /** So one active signal *globally* is not what the ledger guarantees. */
  lemma TwoSymbolsMayBothBeActive()
    ensures
      var l := Levels(Long, 100.0, 90.0, 120.0);
      var signals := Exec([Create("BTCUSDT", l, None), Create("ETHUSDT", l, None)]).db.signals;
      |signals| == 2 && IsActive(signals[0].status) && IsActive(signals[1].status)
  {
    var l := Levels(Long, 100.0, 90.0, 120.0);
    var a, b := Create("BTCUSDT", l, None), Create("ETHUSDT", l, None);
    assert [a, b][..1] == [a] && [a][..0] == [];
    var one := Exec([a]);
    assert one == Do(Exec([]), a);
    assert one.db.signals == [Signal("BTCUSDT", l, PendingEntry, false, None, None)];
    assert "BTCUSDT"[0] != "ETHUSDT"[0];
    assert ActiveSignal(one.db.signals, "ETHUSDT", 0).None?;
    assert Exec([a, b]) == Do(one, b);
  }

  // --- Trades are determined by their rows ----------------------------------

  lemma ClosedFlagDoesNotMatter(p: Position, q: Position, s: Signal, feeRate: real, slippageBps: real)
    requires SameRow(p, q)
    ensures SettleNumbers(p, s, feeRate, slippageBps) == SettleNumbers(q, s, feeRate, slippageBps)
  {
    hide SettleAt;
  }

  /** The trade's numbers are the ones its position and signal rows prescribe. */
  ghost predicate Prescribed(db: Db, t: Trade, feeRate: real, slippageBps: real) {
    t.signalId < |db.signals|
    && exists k :: 0 <= k < |db.positions| && db.positions[k].id == t.positionId
         && SettleNumbers(db.positions[k], db.signals[t.signalId], feeRate, slippageBps)
            == Calc<Numbers>.Success(t.numbers)
  }

  ghost predicate Determined(s: Sys, feeRate: real, slippageBps: real) {
    && (s.db.account.Some? ==> s.db.account.value.feeRate == feeRate)
    && (forall p :: p in s.procs && s.procs[p].CloseCommit? ==> s.procs[p].account.feeRate == feeRate)
    && (forall i :: 0 <= i < |s.db.trades| ==> Prescribed(s.db, s.db.trades[i], feeRate, slippageBps))
  }

  /** The action uses, or sets, only this fee rate and slippage. */
  predicate Steady(a: Action, feeRate: real, slippageBps: real) {
    match a
    case Advance(_, cfg) => cfg.feeRate == feeRate && cfg.slippageBps == slippageBps
    case Configure(_, _, _, fee) => fee == feeRate
    case Bootstrap(cfg) => cfg.feeRate == feeRate
    case _ => true
  }

  /** Old trades stay prescribed while their rows only lose the open flag. */
  lemma PrescriptionLasts(a: Db, b: Db, t: Trade, feeRate: real, slippageBps: real)
    requires Prescribed(a, t, feeRate, slippageBps) && TradeOk(t, a.signals) && SignalsEvolve(a.signals, b.signals)
    requires forall k :: 0 <= k < |a.positions| ==> k < |b.positions| && SameRow(a.positions[k], b.positions[k])
    ensures Prescribed(b, t, feeRate, slippageBps)
  {
    hide SettleNumbers, SameRow;
    var k :| 0 <= k < |a.positions| && a.positions[k].id == t.positionId
      && SettleNumbers(a.positions[k], a.signals[t.signalId], feeRate, slippageBps) == Calc<Numbers>.Success(t.numbers);
    ClosedFlagDoesNotMatter(a.positions[k], b.positions[k], a.signals[t.signalId], feeRate, slippageBps);
    SameRowSameId(a.positions[k], b.positions[k]);
  }

  lemma SameRowSameId(p: Position, q: Position)
    requires SameRow(p, q)
    ensures p.id == q.id && p.signalId == q.signalId
  {
  }

  /** `trades` is unchanged and every old position row is still there. */
  ghost predicate RowsKept(a: Db, b: Db) {
    && a.trades == b.trades && |a.positions| <= |b.positions|
    && forall k :: 0 <= k < |a.positions| ==> SameRow(a.positions[k], b.positions[k])
  }

  lemma CommitCloseIsPrescribed(db: Db, id: nat, row: Signal, p: Position, account: Account, cfg: DemoConfig)
    requires DbOk(db) && Snapshot(db, id, row) && HitTarget(row.status) && ReadRow(db, p, id)
    requires forall i :: 0 <= i < |db.trades| ==> Prescribed(db, db.trades[i], account.feeRate, cfg.slippageBps)
    ensures
      var next := CommitClose(db, id, row, p, account, cfg);
      && next.signals == db.signals
      && (next.account.Some? ==> db.account.Some? && next.account.value.feeRate == db.account.value.feeRate)
      && forall i :: 0 <= i < |next.trades| ==> Prescribed(next, next.trades[i], account.feeRate, cfg.slippageBps)
  {
    hide SettleNumbers, Prescribed, PositionsOk, SignalsOk, BalanceOk, DbGrows;
    var next := CommitClose(db, id, row, p, account, cfg);
    if next != db {
      forall i | 0 <= i < |db.trades| ensures Prescribed(next, db.trades[i], account.feeRate, cfg.slippageBps) {
        PrescriptionLasts(db, next, db.trades[i], account.feeRate, cfg.slippageBps);
      }
      NewTradeIsPrescribed(db, id, row, p, account, cfg);
    }
  }

  lemma NewTradeIsPrescribed(db: Db, id: nat, row: Signal, p: Position, account: Account, cfg: DemoConfig)
    requires Snapshot(db, id, row) && HitTarget(row.status) && ReadRow(db, p, id)
    requires CommitClose(db, id, row, p, account, cfg) != db
    ensures
      var next := CommitClose(db, id, row, p, account, cfg);
      && |next.trades| == |db.trades| + 1
      && Prescribed(next, next.trades[|db.trades|], account.feeRate, cfg.slippageBps)
  {
    hide SettleNumbers;
    var next := CommitClose(db, id, row, p, account, cfg);
    var k :| 0 <= k < |db.positions| && db.positions[k].id == p.id;
    assert SameRow(p, next.positions[k]);
    ClosedFlagDoesNotMatter(p, next.positions[k], row, account.feeRate, cfg.slippageBps);
  }

  lemma OtherStepsKeepRows(db: Db, proc: Proc, cfg: DemoConfig)
    requires !proc.CloseCommit?
    ensures RowsKept(db, AdvanceStep(db, proc, cfg).0) && AdvanceStep(db, proc, cfg).0.signals == db.signals
    ensures
      var next := AdvanceStep(db, proc, cfg).0;
      || next.account == db.account
      || (db.account.None? && next.account.Some? && next.account.value.feeRate == cfg.feeRate)
  {
    hide SizePosition;
  }

  lemma AdvanceKeepsDetermined(s: Sys, p: nat, cfg: DemoConfig)
    requires SysOk(s) && Determined(s, cfg.feeRate, cfg.slippageBps)
    ensures Determined(Do(s, Advance(p, cfg)), cfg.feeRate, cfg.slippageBps)
  {
    hide DbOk, Prescribed, CommitClose, Snapshot, ReadRow, SignalsEvolve;
    var proc := ProcAt(s, p);
    var next := AdvanceStep(s.db, proc, cfg).0;
    if proc.CloseCommit? {
      CommitCloseIsPrescribed(s.db, proc.id, proc.row, proc.position, proc.account, cfg);
    } else {
      OtherStepsKeepRows(s.db, proc, cfg);
      EveryRowEvolvesToItself(s.db.signals);
      PrescriptionsLast(s.db, next, cfg.feeRate, cfg.slippageBps);
    }
  }

  lemma PrescriptionsLast(a: Db, b: Db, feeRate: real, slippageBps: real)
    requires DbOk(a) && SignalsEvolve(a.signals, b.signals) && RowsKept(a, b)
    requires forall i :: 0 <= i < |a.trades| ==> Prescribed(a, a.trades[i], feeRate, slippageBps)
    ensures forall i :: 0 <= i < |b.trades| ==> Prescribed(b, b.trades[i], feeRate, slippageBps)
  {
    hide Prescribed, SignalsOk, PositionsOk, BalanceOk, SameRow, Evolves;
    forall i | 0 <= i < |b.trades| ensures Prescribed(b, b.trades[i], feeRate, slippageBps) {
      PrescriptionLasts(a, b, a.trades[i], feeRate, slippageBps);
    }
  }

  lemma DoKeepsDetermined(s: Sys, a: Action, feeRate: real, slippageBps: real)
    requires SysOk(s) && Determined(s, feeRate, slippageBps) && Steady(a, feeRate, slippageBps)
    ensures Determined(Do(s, a), feeRate, slippageBps)
  {
    hide DbOk, Prescribed, AdvanceStep;
    if a.Advance? {
      AdvanceKeepsDetermined(s, a.p, a.cfg);
    } else {
      DoKeeps(s, a);
      OtherActionsKeepRows(s, a);
      if !a.Reset? {
        PrescriptionsLast(s.db, Do(s, a).db, feeRate, slippageBps);
      }
    }
  }

  lemma OtherActionsKeepRows(s: Sys, a: Action)
    requires !a.Advance?
    ensures a.Reset? || RowsKept(s.db, Do(s, a).db)
    ensures a.Reset? && Do(s, a) != s ==> Do(s, a).db.trades == []
  {
    hide AdvanceStep;
  }

  lemma {:induction false} SteadyRunsAreDetermined(acts: seq<Action>, feeRate: real, slippageBps: real)
    requires forall i :: 0 <= i < |acts| ==> Steady(acts[i], feeRate, slippageBps)
    ensures Determined(Exec(acts), feeRate, slippageBps)
  {
    hide Do, SysOk, Determined, Prescribed;
    if acts == [] {
      NothingIsDetermined(feeRate, slippageBps);
    } else {
      var n := |acts| - 1;
      SteadyRunsAreDetermined(acts[..n], feeRate, slippageBps);
      RunsStaySafe(acts[..n]);
      DoKeepsDetermined(Exec(acts[..n]), acts[n], feeRate, slippageBps);
    }
  }

  lemma NothingIsDetermined(feeRate: real, slippageBps: real)
    ensures Determined(Sys(EMPTY_DB, map[]), feeRate, slippageBps)
  {
  }

  /** CRASHES AND SCHEDULING DO NOT CHANGE A TRADE: take any two runs with the same fee
      rate and slippage -- one may crash anywhere and be repaired later, by any daemon --
      and two trades whose position and signal rows agree. Their numbers are equal. */
  lemma SameRowsSameTrade(
      actsA: seq<Action>, actsB: seq<Action>, feeRate: real, slippageBps: real, i: nat, j: nat, k: nat, m: nat)
    requires forall n :: 0 <= n < |actsA| ==> Steady(actsA[n], feeRate, slippageBps)
    requires forall n :: 0 <= n < |actsB| ==> Steady(actsB[n], feeRate, slippageBps)
    requires i < |Exec(actsA).db.trades| && k < |Exec(actsA).db.positions|
    requires j < |Exec(actsB).db.trades| && m < |Exec(actsB).db.positions|
    requires
      var (a, b) := (Exec(actsA).db, Exec(actsB).db);
      && a.positions[k].id == a.trades[i].positionId && b.positions[m].id == b.trades[j].positionId
      && SameRow(a.positions[k].(id := b.positions[m].id), b.positions[m])
      && a.trades[i].signalId < |a.signals| && b.trades[j].signalId < |b.signals|
      && a.signals[a.trades[i].signalId] == b.signals[b.trades[j].signalId]
    ensures Exec(actsA).db.trades[i].numbers == Exec(actsB).db.trades[j].numbers
  {
    hide Exec, SettleNumbers;
    TradeFollowsItsRows(actsA, feeRate, slippageBps, i, k);
    TradeFollowsItsRows(actsB, feeRate, slippageBps, j, m);
    var (a, b) := (Exec(actsA).db, Exec(actsB).db);
    SettleIgnoresIds(a.positions[k], b.positions[m], a.signals[a.trades[i].signalId], feeRate, slippageBps);
  }

  lemma SettleIgnoresIds(p: Position, q: Position, s: Signal, feeRate: real, slippageBps: real)
    requires SameRow(p.(id := q.id), q)
    ensures SettleNumbers(p, s, feeRate, slippageBps) == SettleNumbers(q, s, feeRate, slippageBps)
  {
    hide SettleAt;
  }

  /** In every state a run with one fee rate and slippage reaches, each recorded trade
      carries the numbers that its position row and its signal row prescribe. */
  lemma TradeFollowsItsRows(acts: seq<Action>, feeRate: real, slippageBps: real, i: nat, k: nat)
    requires forall n :: 0 <= n < |acts| ==> Steady(acts[n], feeRate, slippageBps)
    requires i < |Exec(acts).db.trades| && k < |Exec(acts).db.positions|
    requires Exec(acts).db.positions[k].id == Exec(acts).db.trades[i].positionId
    ensures
      var db := Exec(acts).db;
      && db.trades[i].signalId < |db.signals|
      && SettleNumbers(db.positions[k], db.signals[db.trades[i].signalId], feeRate, slippageBps)
         == Calc<Numbers>.Success(db.trades[i].numbers)
  {
    hide Exec, SettleNumbers, SignalsOk, TradesOk, BalanceOk, ProcOk;
    RunsStaySafe(acts);
    SteadyRunsAreDetermined(acts, feeRate, slippageBps);
    assert Prescribed(Exec(acts).db, Exec(acts).db.trades[i], feeRate, slippageBps);
  }
}
