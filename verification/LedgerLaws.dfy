/** What each ledger transaction writes, field by field, and exactly when it succeeds. */
module LedgerLaws {
  import opened Common
  import opened DemoAccount
  import opened Ledger
  import opened LedgerInvariant
  import opened Daemons
  import opened LedgerSafety
  import opened LedgerTheorems
  import R = Recovery

  // --- Settling ------------------------------------------------------------------

  /** The price a signal was closed at; without one, the level of its kind. */
  function Level(p: Position, s: Signal): real {
    match s.closePrice
    case Some(price) => price
    case None => if s.status.TpHit? then p.takeProfit else p.stopLoss
  }

  /** The numbers of a close: adverse exit, gross move, the fee on both notionals, net, net
      in percent of the margin, and a WIN exactly for a positive net. */
  ghost predicate SettledRight(p: Position, s: Signal, fee: real, slippageBps: real, n: Numbers) {
    var long, slip := s.levels.direction.Long?, slippageBps / 10000.0;
    && n.exitPrice == Level(p, s) * (if long then 1.0 - slip else 1.0 + slip)
    && n.grossPnl == (if long then n.exitPrice - p.entryPrice else p.entryPrice - n.exitPrice) * p.quantity
    && n.fee == p.positionSize * fee + n.exitPrice * p.quantity * fee
    && n.netPnl == n.grossPnl - n.fee && (n.won <==> n.netPnl > 0.0)
    && (p.margin > 0.0 ==> n.pnlPercent * p.margin == 100.0 * n.netPnl)
  }

  lemma SettlingIsRight(p: Position, s: Signal, fee: real, slippageBps: real)
    requires SettleNumbers(p, s, fee, slippageBps).Success?
    ensures SettledRight(p, s, fee, slippageBps, SettleNumbers(p, s, fee, slippageBps).value)
  {
    var level, n := Level(p, s), SettleNumbers(p, s, fee, slippageBps).value;
    var factor := SlippageFactor(slippageBps, s.levels.direction, false);
    assert factor == if s.levels.direction.Long? then 1.0 - slippageBps / 10000.0 else 1.0 + slippageBps / 10000.0;
    assert n.exitPrice == level * factor;
    if p.margin > 0.0 {
      assert n.netPnl / p.margin * p.margin == n.netPnl;
    }
  }

  /** The trade row repeats its position row. */
  predicate Repeats(t: Trade, p: Position, s: Signal) {
    && t.positionId == p.id && t.signalId == p.signalId && t.side == s.levels.direction
    && t.entryPrice == p.entryPrice && t.quantity == p.quantity && t.positionSize == p.positionSize
    && t.margin == p.margin && t.leverage == p.leverage
  }

  /** Exactly one row changes, and only from open to closed. */
  ghost predicate ClosesOnly(before: seq<Position>, after: seq<Position>, id: nat) {
    |after| == |before|
    && forall k :: 0 <= k < |before| ==> after[k] == before[k].(closed := before[k].closed || before[k].id == id)
  }

  /** CLOSING, exactly: a TP/SL signal with a position and no trade. Then one trade that
      repeats the position row is appended with the right numbers, that row is closed, and
      the balance moves by the net; otherwise nothing changes. */
  lemma ClosesExactlyWhen(db: Db, cfg: DemoConfig, id: nat, row: Signal)
    requires R.ClosePosition(db, cfg, id, row).Success? && db.account.Some?
    ensures
      var (next, found) := R.ClosePosition(db, cfg, id, row).value;
      var held, traded := PositionFor(db.positions, id), TradeFor(db.trades, id);
      if (row.status.TpHit? || row.status.SlHit?) && traded.None? && held.Some? then
        && found.Some? && next.trades == db.trades + [found.value] && next.signals == db.signals
        && ClosesOnly(db.positions, next.positions, held.value.id)
        && Repeats(found.value, held.value, row)
        && SettledRight(held.value, row, db.account.value.feeRate, cfg.slippageBps, found.value.numbers)
        && next.account.Some?
        && var (a, b, net) := (db.account.value, next.account.value, found.value.numbers.netPnl);
           && b.balance == b.equity == a.balance + net && b.initialBalance == a.initialBalance
           && b.peakEquity == (if a.balance + net > a.peakEquity then a.balance + net else a.peakEquity)
           && b.margin == a.margin && b.leverage == a.leverage && b.riskPercent == a.riskPercent
           && b.feeRate == a.feeRate
      else next == db && found == if row.status.TpHit? || row.status.SlHit? then traded else None
  {
    hide SettleNumbers, SettledRight, PositionFor, TradeFor, PositionById;
    var held := PositionFor(db.positions, id);
    if held.Some? && SettleNumbers(held.value, row, db.account.value.feeRate, cfg.slippageBps).Success? {
      SettlingIsRight(held.value, row, db.account.value.feeRate, cfg.slippageBps);
    }
  }

  // --- Signals and the account ------------------------------------------------------

  /** TRANSITIONS, exactly: a pending signal may open or be cancelled, an open one may hit
      its target, its stop, or be cancelled; a hit needs a positive close price. The row
      keeps everything else. */
  lemma TransitionsExactlyWhen(db: Db, id: nat, to: Status, price: Option<real>)
    ensures
      var r := TransitionSignal(db, id, to, price);
      && (r.Success? <==>
            && id < |db.signals| && (price.Some? ==> price.value > 0.0)
            && (|| (db.signals[id].status.PendingEntry? && to in {Open, Cancelled})
                || (db.signals[id].status.Open? && to in {TpHit, SlHit, Cancelled}))
            && (to in {TpHit, SlHit} ==> price.Some?))
      && (r.Success? ==>
            var s, t := db.signals[id], r.value.1;
            && r.value.0 == db.(signals := db.signals[id := t])
            && t.status == to && t.symbol == s.symbol && t.levels == s.levels && t.marketTs == s.marketTs
            && t.wasOpened == (s.wasOpened || to.Open?) && t.closePrice == if to.Open? then None else price)
  {
  }

  /** REFUSALS, exactly: which error each refused write of a signal raises. */
  lemma RefusalsOfSignals(db: Db, symbol: string, l: Levels, marketTs: Option<int>, id: nat, to: Status,
                          price: Option<real>)
    ensures
      var r := CreateSignal(db, symbol, l, marketTs);
      var taken := exists i :: 0 <= i < |db.signals| && db.signals[i].symbol == symbol
                               && (db.signals[i].status.PendingEntry? || db.signals[i].status.Open?);
      && (r == Failure(InvalidValue("price")) <==> l.entry <= 0.0 || l.stopLoss <= 0.0 || l.takeProfit <= 0.0)
      && (r == Failure(InvalidValue("price ordering")) <==> PositiveLevels(l) && !Ordered(l))
      && (r == Failure(SignalExists) <==> PositiveLevels(l) && Ordered(l) && taken)
    ensures
      var r := TransitionSignal(db, id, to, price);
      var usable := price.None? || price.value > 0.0;
      && (r == Failure(SignalNotFound) <==> usable && id >= |db.signals|)
      && (r == Failure(InvalidTransition) <==>
            usable && id < |db.signals|
            && !(db.signals[id].status.PendingEntry? && to in {Open, Cancelled})
            && !(db.signals[id].status.Open? && to in {TpHit, SlHit, Cancelled}))
      && (r.Failure? ==> r.error in {SignalNotFound, InvalidTransition, InvalidValue("close_price")})
  {
  }

  /** BOOKING, exactly: a usable position row that exists, no trade yet, a positive fee and an
      account; and which error refuses anything else first. */
  lemma RefusalsOfTrades(db: Db, p: Position, id: nat, side: Direction, n: Numbers)
    ensures
      var r := RecordTrade(db, p, id, side, n);
      var held := exists k :: 0 <= k < |db.positions| && db.positions[k].id == p.id;
      var traded := exists k :: 0 <= k < |db.trades| && db.trades[k].signalId == id;
      var priced :=
        p.entryPrice > 0.0 && n.exitPrice > 0.0 && p.quantity > 0.0 && p.margin > 0.0 && p.positionSize > 0.0;
      && (r.Success? <==> p.leverage >= 1 && held && !traded && priced && n.fee > 0.0 && db.account.Some?)
      && (r == Failure(Duplicate) <==> p.leverage >= 1 && held && traded)
      && (r == Failure(NotFound) <==>
            p.leverage >= 1 && (!held || (!traded && priced && n.fee > 0.0 && db.account.None?)))
      && (r.Success? ==>
            r.value.1.id == db.nextTradeId && r.value.0.nextTradeId == db.nextTradeId + 1
            && r.value.0.signals == db.signals)
  {
    hide MarkClosed, Credit;
  }

  /** INSERTING A POSITION, exactly: an existing row is answered, a new one needs positive
      numbers; and both calculations succeed exactly on usable inputs. */
  lemma RefusalsOfPositions(db: Db, id: nat, symbol: string, side: Direction, entry: real, quantity: real, size: real,
                            margin: real, leverage: int, stop: real, target: real)
    ensures
      var r := CreatePosition(db, id, symbol, side, entry, quantity, size, margin, leverage, stop, target);
      var held := exists k :: 0 <= k < |db.positions| && db.positions[k].signalId == id;
      var usable := entry > 0.0 && quantity > 0.0 && size > 0.0 && margin > 0.0 && stop > 0.0 && target > 0.0;
      && (r.Success? <==> leverage >= 1 && (held || usable))
      && (r.Success? && held ==> r.value.0 == db && r.value.1 in db.positions && r.value.1.signalId == id)
      && (r.Success? && !held ==> |r.value.0.positions| == |db.positions| + 1)
  {
  }

  lemma SizingSucceedsExactlyWhen(a: Account, l: Levels, slippageBps: real)
    ensures SizePosition(a, l, slippageBps).Success? <==>
              slippageBps >= 0.0
              && Sizable(a.balance, a.margin, a.leverage, a.riskPercent, FilledEntry(l, slippageBps), l.stopLoss)
  {
    hide ResolveQuantity, FilledEntry, Sizable;
    SizingSucceedsExactlyWhenSizable(
      a.balance, a.margin, a.leverage, a.riskPercent, FilledEntry(l, slippageBps), l.stopLoss);
  }

  lemma SettlingSucceedsExactlyWhen(p: Position, s: Signal, fee: real, slippageBps: real)
    ensures
      var exit := Level(p, s) * SlippageFactor(slippageBps, s.levels.direction, false);
      SettleNumbers(p, s, fee, slippageBps).Success? <==>
        slippageBps >= 0.0 && p.entryPrice > 0.0 && exit > 0.0 && p.quantity > 0.0 && p.positionSize > 0.0 && fee >= 0.0
  {
    hide SlippageFactor;
  }

  /** A created signal is appended as it was asked for, pending. */
  lemma CreationAppendsTheSignal(db: Db, symbol: string, l: Levels, marketTs: Option<int>)
    requires CreateSignal(db, symbol, l, marketTs).Success?
    ensures
      var (next, id) := CreateSignal(db, symbol, l, marketTs).value;
      && id == |db.signals| && |next.signals| == id + 1 && next == db.(signals := next.signals)
      && next.signals[..id] == db.signals
      && var s := next.signals[id];
         && s.symbol == symbol && s.levels == l && s.marketTs == marketTs
         && s.status.PendingEntry? && !s.wasOpened && s.closePrice.None?
  {
  }

  /** ACCOUNT, exactly: created from a usable configuration with all four balances at the
      initial one and the configured rules; an existing row is returned as it is. */
  lemma AccountIsEnsuredExactlyWhen(db: Db, cfg: DemoConfig)
    ensures
      var r := EnsureAccount(db, cfg);
      && (r.Success? <==> cfg.initialBalance > 0.0 && cfg.margin > 0.0 && cfg.leverage >= 1
                          && cfg.riskPercent > 0.0 && cfg.feeRate > 0.0)
      && (r.Success? ==>
            var a := r.value.1;
            && r.value.0 == db.(account := Some(a)) && (db.account.Some? ==> Some(a) == db.account)
            && (db.account.None? ==>
                  && a.initialBalance == a.balance == a.equity == a.peakEquity == cfg.initialBalance
                  && a.margin == cfg.margin && a.leverage == cfg.leverage && a.riskPercent == cfg.riskPercent
                  && a.feeRate == cfg.feeRate))
  {
  }

  /** A reset is a fresh start; a new configuration touches the rules and no balance. */
  lemma ResetAndConfigureExactly(
      db: Db, initial: real, margin: real, leverage: int, riskPercent: real, feeRate: real)
    ensures
      var r := ResetAccount(db, initial);
      && (r.Success? <==> initial > 0.0 && db.account.Some?)
      && (r.Success? ==>
            && r.value == db.(positions := [], trades := [], account := r.value.account) && r.value.account.Some?
            && var (a, b) := (db.account.value, r.value.account.value);
               && b.initialBalance == b.balance == b.equity == b.peakEquity == initial
               && b.margin == a.margin && b.leverage == a.leverage && b.riskPercent == a.riskPercent
               && b.feeRate == a.feeRate)
    ensures
      var r := UpdateAccountConfig(db, margin, leverage, riskPercent, feeRate);
      && (r.Success? <==> margin > 0.0 && leverage >= 1 && riskPercent > 0.0 && feeRate > 0.0 && db.account.Some?)
      && (r.Success? ==>
            && r.value == db.(account := r.value.account) && r.value.account.Some?
            && var (a, b) := (db.account.value, r.value.account.value);
               && b.initialBalance == a.initialBalance && b.balance == a.balance && b.equity == a.equity
               && b.peakEquity == a.peakEquity && b.margin == margin && b.leverage == leverage
               && b.riskPercent == riskPercent && b.feeRate == feeRate)
  {
  }

  // --- Every reachable state ----------------------------------------------------------

  ghost predicate Repeated(db: Db, t: Trade) {
    && t.signalId < |db.signals|
    && forall k :: 0 <= k < |db.positions| && db.positions[k].id == t.positionId ==>
         Repeats(t, db.positions[k], db.signals[t.signalId])
  }

  /** A recorded trade keeps repeating its row while the tables only grow. */
  lemma RepetitionLasts(a: Db, b: Db, t: Trade)
    requires TradesOk(a) && PositionsOk(a) && DbGrows(a, b) && t in a.trades && Repeated(a, t)
    ensures Repeated(b, t)
  {
    hide SignalOk;
    var c :| 0 <= c < |a.positions| && a.positions[c].id == t.positionId;
    forall k | 0 <= k < |b.positions| && b.positions[k].id == t.positionId
      ensures Repeats(t, b.positions[k], b.signals[t.signalId])
    {
      assert Kept(a.positions, b.positions[k]);
      var j :| 0 <= j < |a.positions| && SameRow(a.positions[j], b.positions[k]);
      assert Repeats(t, a.positions[j], a.signals[t.signalId]);
      assert Evolves(a.signals[t.signalId], b.signals[t.signalId]);
    }
  }

  lemma ClosedTradeIsRepeated(db: Db, id: nat, row: Signal, p: Position, account: Account, cfg: DemoConfig)
    requires Snapshot(db, id, row) && ReadRow(db, p, id)
    ensures
      var next := CommitClose(db, id, row, p, account, cfg);
      next.trades == db.trades
      || (|next.trades| == |db.trades| + 1 && next.trades[..|db.trades|] == db.trades
          && Repeated(next, next.trades[|db.trades|]))
  {
    hide SettleNumbers;
  }

  /** Whose trades the next state has: the same, none, or one more of a finished close. */
  lemma TradesMove(s: Sys, act: Action)
    requires SysOk(s)
    ensures
      var t := Do(s, act).db;
      || t.trades == s.db.trades || t.trades == []
      || (|t.trades| == |s.db.trades| + 1 && t.trades[..|s.db.trades|] == s.db.trades
          && Repeated(t, t.trades[|s.db.trades|]))
  {
    hide CommitClose, CommitOpen, DbOk, Repeated, SettleNumbers, EnsureAccount, TransitionSignal, PositionFor, TradeFor;
    if act.Advance? {
      var proc := ProcAt(s, act.p);
      if proc.CloseCommit? {
        ClosedTradeIsRepeated(s.db, proc.id, proc.row, proc.position, proc.account, act.cfg);
      } else {
        OtherStepsKeepRows(s.db, proc, act.cfg);
      }
    } else {
      OtherActionsKeepRows(s, act);
    }
  }

  /** EVERY TRADE, in every state any interleaving and any crash reaches, repeats the
      position it closed: same side, entry, quantity, size, margin and leverage. */
  lemma {:induction false} EveryTradeRepeatsItsPosition(acts: seq<Action>, i: nat)
    requires i < |Exec(acts).db.trades|
    ensures Repeated(Exec(acts).db, Exec(acts).db.trades[i])
  {
    hide Do, Repeated, DbGrows, SignalsOk, BalanceOk, PositionsOk, TradesOk, ProcOk;
    var n := |acts| - 1;
    var s, t := Exec(acts[..n]), Exec(acts);
    assert t == Do(s, acts[n]);
    RunsStaySafe(acts[..n]);
    TradesMove(s, acts[n]);
    DoKeeps(s, acts[n]);
    if i < |s.db.trades| {
      assert t.db.trades[i] == s.db.trades[i];
      EveryTradeRepeatsItsPosition(acts[..n], i);
      RepetitionLasts(s.db, t.db, s.db.trades[i]);
    }
  }

  // --- Steps ---------------------------------------------------------------------------

  /** STEPS: an action of one process leaves every other process alone, a crash only makes it
      forget, and an action on the tables commits its transaction or nothing. */
  lemma StepsTouchTheirOwn(s: Sys, a: Action, p: nat, q: nat)
    requires p != q
    ensures
      var crashed := Do(s, Crash(p));
      crashed.db == s.db && ProcAt(crashed, p) == Idle && ProcAt(crashed, q) == ProcAt(s, q)
    ensures
      a.Watch? || a.Confirm? || a.BeginOpen? || a.BeginClose? || a.BeginManual? || a.Price? || a.Advance? ==>
        a.p == p ==> ProcAt(Do(s, a), q) == ProcAt(s, q)
    ensures
      a.Create? || a.Cancel? || a.Reset? || a.Configure? || a.Bootstrap? ==>
        && Do(s, a).procs == s.procs
        && (a.Cancel? && TransitionSignal(s.db, a.id, Cancelled, None).Success? ==>
              Do(s, a).db == TransitionSignal(s.db, a.id, Cancelled, None).value.0)
        && (a.Reset? && a.initial > 0.0 && s.db.account.Some? ==>
              Do(s, a).db.account.Some? && Do(s, a).db.account.value.balance == a.initial && Do(s, a).db.trades == [])
        && (a.Configure? && s.db.account.Some? && a.margin > 0.0 && a.leverage >= 1 && a.riskPercent > 0.0
            && a.feeRate > 0.0 ==>
              Do(s, a).db.account.Some? && Do(s, a).db.account.value.feeRate == a.feeRate)
        && (a.Bootstrap? && EnsureAccount(s.db, a.cfg).Success? ==> Do(s, a).db.account.Some?)
  {
    hide AdvanceStep, ConfirmStep, ManualStep, CreateSignal;
  }

  /** What a process remembers when it starts: the row as it is, and no row changes. */
  lemma StartsReadTheRow(s: Sys, p: nat, id: nat)
    requires id < |s.db.signals| && ProcAt(s, p) == Idle
    ensures
      var row := s.db.signals[id];
      && Do(s, BeginOpen(p, id)).db == s.db && ProcAt(Do(s, BeginOpen(p, id)), p) == OpenLookup(id, row)
      && Do(s, BeginClose(p, id)).db == s.db && ProcAt(Do(s, BeginClose(p, id)), p) == CloseLookup(id, row)
      && Do(s, BeginManual(p, id)).db == s.db
      && ProcAt(Do(s, BeginManual(p, id)), p) == (if row.status.Open? then ManualLookup(id, row) else Idle)
    ensures
      var row := s.db.signals[id];
      && Do(s, Watch(p, row.symbol)).db == s.db
      && (IsActive(row.status) && SignalsOk(s.db.signals) ==>
            ProcAt(Do(s, Watch(p, row.symbol)), p) == Watching(id, row))
  {
    hide SignalOk, CreateSignal;
  }

  /** A manual close lands where its price says, and the process goes on to book that row. */
  lemma PricesLand(s: Sys, p: nat, id: nat, row: Signal, price: real)
    requires ProcAt(s, p) == ManualPrice(id, row) && id < |s.db.signals| && s.db.signals[id].status.Open? && price > 0.0
    ensures
      var t := Do(s, Price(p, Some(price)));
      var profitable := if row.levels.direction.Long? then price >= row.levels.entry else price <= row.levels.entry;
      && |t.db.signals| == |s.db.signals| && t.db == s.db.(signals := t.db.signals)
      && t.db.signals[id].status == (if profitable then TpHit else SlHit) && t.db.signals[id].closePrice == Some(price)
      && ProcAt(t, p) == CloseLookup(id, t.db.signals[id])
    ensures Do(s, Price(p, None)).db == s.db && ProcAt(Do(s, Price(p, None)), p) == Idle
  {
  }

  /** A clean entry opens the pending row and goes on to open its position; if another daemon
      opened it first, the process looks again and follows that row. */
  lemma EntriesLand(s: Sys, p: nat, id: nat, row: Signal, high: real, low: real, cfg: DemoConfig)
    requires ProcAt(s, p) == Watching(id, row) && id < |s.db.signals| && row.status.PendingEntry?
    requires Monitor.EvaluateEntry(row.levels, high, low).EntryHit?
    ensures
      var t := Do(s, Confirm(p, high, low));
      s.db.signals[id].status.PendingEntry? ==>
        && |t.db.signals| == |s.db.signals| && t.db.signals[id].status.Open?
        && ProcAt(t, p) == OpenLookup(id, t.db.signals[id])
    ensures
      var t := Do(s, Confirm(p, high, low));
      var u := Do(t, Advance(p, cfg));
      s.db.signals[id].status.Open? && s.db.signals[id].symbol == row.symbol && SignalsOk(s.db.signals) ==>
        t.db == u.db == s.db && ProcAt(u, p) == OpenLookup(id, s.db.signals[id])
  {
    hide SignalOk, CreateSignal;
  }
}
