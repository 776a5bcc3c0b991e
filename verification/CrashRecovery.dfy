/** What a restart books: the trades the crashed daemons still owed, computed from the rows
    they left, whatever their number and whatever else is active. */
module CrashRecovery {
  import opened Common
  import opened DemoAccount
  import opened Ledger
  import opened LedgerInvariant
  import opened LedgerSafety
  import opened Recovery
  import LedgerTheorems

  // --- What is owed -----------------------------------------------------------

  function FeeRate(db: Db, cfg: DemoConfig): real {
    if db.account.Some? then db.account.value.feeRate else cfg.feeRate
  }

  function Balance(db: Db, cfg: DemoConfig): real {
    if db.account.Some? then db.account.value.balance else cfg.initialBalance
  }

  /** The numbers the rows prescribe for closing position `p`. */
  function NumbersFor(db: Db, cfg: DemoConfig, p: Position): Calc<Numbers>
    requires p.signalId < |db.signals|
  {
    SettleNumbers(p, db.signals[p.signalId], FeeRate(db, cfg), cfg.slippageBps)
  }

  /** The position's signal has hit a target, but no trade tells of it. */
  predicate Owed(db: Db, cfg: DemoConfig, p: Position) {
    && p.signalId < |db.signals| && HitTarget(db.signals[p.signalId].status)
    && TradeFor(db.trades, p.signalId).None? && NumbersFor(db, cfg, p).Success?
  }

  function OwedTrade(db: Db, cfg: DemoConfig, p: Position, tradeId: nat): Trade
    requires Owed(db, cfg, p)
  {
    Trade(tradeId, p.id, p.signalId, db.signals[p.signalId].levels.direction, p.entryPrice, p.quantity,
          p.positionSize, p.margin, p.leverage, NumbersFor(db, cfg, p).value)
  }

  /** What one position owes: its trade, or nothing. */
  function OwedBy(db: Db, cfg: DemoConfig, p: Position, tradeId: nat): seq<Trade> {
    if Owed(db, cfg, p) then [OwedTrade(db, cfg, p, tradeId)] else []
  }

  /** The trades owed by the first `k` positions, in table order. */
  function DueTrades(db: Db, cfg: DemoConfig, k: nat): seq<Trade>
    requires k <= |db.positions|
  {
    if k == 0 then [] else
      var front := DueTrades(db, cfg, k - 1);
      front + OwedBy(db, cfg, db.positions[k - 1], db.nextTradeId + |front|)
  }

  lemma {:induction false} TradeForConcat(a: seq<Trade>, b: seq<Trade>, id: nat)
    ensures TradeFor(a + b, id) == if TradeFor(a, id).Some? then TradeFor(a, id) else TradeFor(b, id)
  {
    if a == [] {
      assert a + b == b;
    } else {
      assert (a + b)[1..] == a[1..] + b;
      TradeForConcat(a[1..], b, id);
    }
  }

  lemma OwedByFor(db: Db, cfg: DemoConfig, p: Position, n: nat, id: nat)
    ensures TradeFor(OwedBy(db, cfg, p, n), id)
         == if p.signalId == id && Owed(db, cfg, p) then Some(OwedTrade(db, cfg, p, n)) else None
  {
    hide NumbersFor;
  }

  lemma {:induction false} NothingDue(db: Db, cfg: DemoConfig, k: nat, id: nat)
    requires k <= |db.positions| && forall i :: 0 <= i < k ==> db.positions[i].signalId != id
    ensures TradeFor(DueTrades(db, cfg, k), id).None?
  {
    hide OwedBy, TradeFor;
    if k > 0 {
      var (front, p) := (DueTrades(db, cfg, k - 1), db.positions[k - 1]);
      NothingDue(db, cfg, k - 1, id);
      TradeForConcat(front, OwedBy(db, cfg, p, db.nextTradeId + |front|), id);
      OwedByFor(db, cfg, p, db.nextTradeId + |front|, id);
    } else {
      NoTrades(id);
    }
  }

  /** A signal has a due trade exactly when its position is owed one, and it is that one. */
  lemma {:induction false} DueFor(db: Db, cfg: DemoConfig, k: nat, i: nat)
    requires PositionsOk(db) && i < k <= |db.positions|
    ensures
      var p := db.positions[i];
      TradeFor(DueTrades(db, cfg, k), p.signalId)
      == if Owed(db, cfg, p) then Some(OwedTrade(db, cfg, p, db.nextTradeId + |DueTrades(db, cfg, i)|)) else None
  {
    hide OwedBy, TradeFor, Owed, OwedTrade, PositionOk;
    var id := db.positions[i].signalId;
    var (front, last) := (DueTrades(db, cfg, k - 1), db.positions[k - 1]);
    TradeForConcat(front, OwedBy(db, cfg, last, db.nextTradeId + |front|), id);
    OwedByFor(db, cfg, last, db.nextTradeId + |front|, id);
    if i == k - 1 {
      NothingDue(db, cfg, i, id);
    } else {
      DueFor(db, cfg, k - 1, i);
    }
  }

  lemma TradeForOne(t: Trade, id: nat)
    ensures TradeFor([t], id) == if t.signalId == id then Some(t) else None
  {
  }

  lemma NoTrades(id: nat)
    ensures TradeFor([], id).None?
  {
  }

  // --- The repair pass ----------------------------------------------------------

  /** The pass has dealt with the first `k` positions of `start`: it has appended what they
      owed, and otherwise only closed rows and moved the balance. */
  ghost predicate Tracks(start: Db, now: Db, cfg: DemoConfig, k: nat) {
    && k <= |start.positions| && start.account.Some? && now.account.Some?
    && DbOk(start) && DbOk(now) && now.signals == start.signals
    && FeeRate(now, cfg) == FeeRate(start, cfg)
    && now.account.value.initialBalance == start.account.value.initialBalance
    && |now.positions| == |start.positions|
    && (forall i :: 0 <= i < |start.positions| ==> SameRow(start.positions[i], now.positions[i]))
    && now.trades == start.trades + DueTrades(start, cfg, k)
    && now.nextTradeId == start.nextTradeId + |DueTrades(start, cfg, k)|
  }

  lemma RowIsFound(db: Db, k: nat)
    requires PositionsOk(db) && k < |db.positions|
    ensures PositionFor(db.positions, db.positions[k].signalId) == Some(db.positions[k])
  {
    var found := PositionFor(db.positions, db.positions[k].signalId);
    assert found.Some?;
    var i :| 0 <= i < |db.positions| && db.positions[i] == found.value;
  }

  /** On sound rows whatever is unsettled can be settled. */
  lemma UnsettledIsOwed(db: Db, cfg: DemoConfig, k: nat)
    requires DbOk(db) && Operable(cfg) && k < |db.positions|
    requires HitTarget(db.signals[db.positions[k].signalId].status)
    requires TradeFor(db.trades, db.positions[k].signalId).None?
    ensures Owed(db, cfg, db.positions[k])
  {
    hide SettleNumbers, TradesOk;
    var p := db.positions[k];
    RowIsFound(db, k);
    AccountIsThere(db, cfg, p.signalId);
    AccountIsFunded(db);
    SignalIsOk(db, p.signalId);
    FoundPosition(db, p.signalId);
    SettlingAlwaysWorks(p, db.signals[p.signalId], FeeRate(db, cfg), cfg);
  }

  /** One `close_position` on sound rows: the owed trade, the closed row, the credit. */
  lemma CloseBooksTheOwedTrade(db: Db, cfg: DemoConfig, k: nat)
    requires DbOk(db) && Operable(cfg) && k < |db.positions| && Owed(db, cfg, db.positions[k])
    ensures
      var p := db.positions[k];
      var r := ClosePosition(db, cfg, p.signalId, db.signals[p.signalId]);
      && r.Success? && db.account.Some? && DbOk(r.value.0)
      && r.value.1 == Some(OwedTrade(db, cfg, p, db.nextTradeId))
      && r.value.0 == db.(positions := MarkClosed(db.positions, p.id),
                          trades := db.trades + [OwedTrade(db, cfg, p, db.nextTradeId)],
                          nextTradeId := db.nextTradeId + 1,
                          account := Some(Credit(db.account.value, NumbersFor(db, cfg, p).value.netPnl)))
  {
    hide DbOk, SettleNumbers, PositionFor, TradeFor, MarkClosed, Credit, ClosePosition, EnsureAccount, SettledBy,
        PositionsOk;
    var id := db.positions[k].signalId;
    SoundPositions(db);
    RowIsFound(db, k);
    ClosePositionSettles(db, cfg, id);
    AccountIsReady(db, cfg);
    AccountExistsWithPositions(db, cfg, id);
    CloseUnfolds(db, cfg, db.positions[k]);
  }

  lemma CloseUnfolds(db: Db, cfg: DemoConfig, p: Position)
    requires Owed(db, cfg, p) && PositionFor(db.positions, p.signalId) == Some(p)
    requires db.account.Some? && EnsureAccount(db, cfg) == Tx<(Db, Account)>.Success((db, db.account.value))
    requires ClosePosition(db, cfg, p.signalId, db.signals[p.signalId]).Success?
    ensures
      var t := OwedTrade(db, cfg, p, db.nextTradeId);
      ClosePosition(db, cfg, p.signalId, db.signals[p.signalId]).value
      == (db.(positions := MarkClosed(db.positions, p.id), trades := db.trades + [t], nextTradeId := db.nextTradeId + 1,
              account := Some(Credit(db.account.value, t.numbers.netPnl))), Some(t))
  {
    hide SettleNumbers, PositionFor, PositionById, TradeFor, MarkClosed, Credit, EnsureAccount;
  }

  lemma OwedLasts(start: Db, now: Db, cfg: DemoConfig, p: Position, q: Position, n: nat)
    requires SameRow(p, q) && now.signals == start.signals && FeeRate(now, cfg) == FeeRate(start, cfg)
    requires TradeFor(now.trades, p.signalId) == TradeFor(start.trades, p.signalId)
    ensures Owed(now, cfg, q) == Owed(start, cfg, p)
    ensures Owed(now, cfg, q) ==> OwedTrade(now, cfg, q, n) == OwedTrade(start, cfg, p, n)
  {
    hide SettleNumbers, TradeFor;
    if p.signalId < |start.signals| {
      LedgerTheorems.ClosedFlagDoesNotMatter(p, q, start.signals[p.signalId], FeeRate(start, cfg), cfg.slippageBps);
    }
  }

  lemma RowOfLaterSignal(db: Db, k: nat)
    requires PositionsOk(db) && k < |db.positions|
    ensures forall i :: 0 <= i < k ==> db.positions[i].signalId != db.positions[k].signalId
  {
  }

  lemma PassAdvances(start: Db, now: Db, cfg: DemoConfig, k: nat)
    requires Operable(cfg) && Tracks(start, now, cfg, k) && k < |start.positions|
    ensures SettleRow(now, cfg, start.positions[k]).Success?
    ensures Tracks(start, SettleRow(now, cfg, start.positions[k]).value.0, cfg, k + 1)
  {
    hide DbOk, ClosePosition, DueTrades, TradeFor, Owed, OwedTrade, MarkClosed, Credit;
    var (p, q) := (start.positions[k], now.positions[k]);
    var id := p.signalId;
    assert PositionsOk(start) && PositionsOk(now) by { SoundPositions(start); SoundPositions(now); }
    RowOfLaterSignal(start, k);
    NothingDue(start, cfg, k, id);
    TradeForConcat(start.trades, DueTrades(start, cfg, k), id);
    OwedLasts(start, now, cfg, p, q, now.nextTradeId);
    DueUnfolds(start, cfg, k + 1);
    if Owed(now, cfg, q) {
      CloseBooksTheOwedTrade(now, cfg, k);
      OwedMeans(now, cfg, q);
      var next := ClosePosition(now, cfg, id, now.signals[id]).value.0;
      ClosingKeepsTheRest(start, now, next, cfg, q.id);
    } else {
      NotOwedMeans(now, cfg, k);
    }
  }

  lemma SoundPositions(db: Db)
    requires DbOk(db)
    ensures PositionsOk(db)
  {
  }

  lemma DueUnfolds(db: Db, cfg: DemoConfig, k: nat)
    requires 1 <= k <= |db.positions|
    ensures
      var (front, p) := (DueTrades(db, cfg, k - 1), db.positions[k - 1]);
      DueTrades(db, cfg, k)
      == front + if Owed(db, cfg, p) then [OwedTrade(db, cfg, p, db.nextTradeId + |front|)] else []
  {
  }

  lemma OwedMeans(db: Db, cfg: DemoConfig, p: Position)
    requires Owed(db, cfg, p)
    ensures p.signalId < |db.signals| && HitTarget(db.signals[p.signalId].status)
    ensures TradeFor(db.trades, p.signalId).None?
  {
  }

  lemma NotOwedMeans(db: Db, cfg: DemoConfig, k: nat)
    requires DbOk(db) && Operable(cfg) && k < |db.positions| && !Owed(db, cfg, db.positions[k])
    ensures
      var id := db.positions[k].signalId;
      id >= |db.signals| || !HitTarget(db.signals[id].status) || TradeFor(db.trades, id).Some?
  {
    hide Owed, DbOk;
    var id := db.positions[k].signalId;
    if id < |db.signals| && HitTarget(db.signals[id].status) && TradeFor(db.trades, id).None? {
      UnsettledIsOwed(db, cfg, k);
    }
  }

  lemma ClosingKeepsTheRest(start: Db, now: Db, next: Db, cfg: DemoConfig, positionId: nat)
    requires now.account.Some? && |now.positions| == |start.positions|
    requires forall i :: 0 <= i < |start.positions| ==> SameRow(start.positions[i], now.positions[i])
    requires next.positions == MarkClosed(now.positions, positionId)
    requires exists net: real :: next.account == Some(Credit(now.account.value, net))
    ensures next.account.Some? && FeeRate(next, cfg) == FeeRate(now, cfg)
    ensures next.account.value.initialBalance == now.account.value.initialBalance
    ensures |next.positions| == |start.positions|
    ensures forall i :: 0 <= i < |start.positions| ==> SameRow(start.positions[i], next.positions[i])
  {
  }

  lemma {:induction false} PassBooksWhatIsDue(db: Db, cfg: DemoConfig, k: nat)
    requires DbOk(db) && Operable(cfg) && db.account.Some? && k <= |db.positions|
    ensures SettleRows(db, cfg, db.positions[..k]).Success?
    ensures Tracks(db, SettleRows(db, cfg, db.positions[..k]).value.0, cfg, k)
  {
    hide DbOk, SettleRow, Tracks;
    if k == 0 {
      NothingTracked(db, cfg);
    } else {
      PassBooksWhatIsDue(db, cfg, k - 1);
      assert db.positions[..k][..k - 1] == db.positions[..k - 1];
      PassAdvances(db, SettleRows(db, cfg, db.positions[..k - 1]).value.0, cfg, k - 1);
    }
  }

  lemma NothingTracked(db: Db, cfg: DemoConfig)
    requires DbOk(db) && db.account.Some?
    ensures Tracks(db, db, cfg, 0)
  {
    hide DbOk;
  }

  // --- A whole restart ------------------------------------------------------------

  lemma {:induction false} DueDependsOnItsRows(a: Db, b: Db, cfg: DemoConfig, k: nat)
    requires k <= |a.positions| && k <= |b.positions| && a.positions[..k] == b.positions[..k]
    requires a.signals == b.signals && a.trades == b.trades && a.nextTradeId == b.nextTradeId
    requires FeeRate(a, cfg) == FeeRate(b, cfg)
    ensures DueTrades(a, cfg, k) == DueTrades(b, cfg, k)
  {
    hide SettleNumbers, TradeFor;
    if k > 0 {
      assert a.positions[..k - 1] == a.positions[..k][..k - 1] == b.positions[..k - 1];
      assert a.positions[k - 1] == a.positions[..k][k - 1] == b.positions[k - 1];
      DueDependsOnItsRows(a, b, cfg, k - 1);
    }
  }

  lemma OpeningLeavesTradeIds(db: Db, cfg: DemoConfig, id: nat, row: Signal)
    requires OpenPosition(db, cfg, id, row).Success?
    ensures OpenPosition(db, cfg, id, row).value.0.nextTradeId == db.nextTradeId
  {
    hide SizePosition, PositionFor;
  }

  lemma BeginningOwesTheSame(db: Db, cfg: DemoConfig, active: Option<nat>)
    requires DbOk(db) && Operable(cfg) && (active.Some? ==> active.value < |db.signals|)
    ensures Begun(db, cfg, active).Success?
    ensures
      var begun := Begun(db, cfg, active).value.0;
      && DbOk(begun) && begun.account.Some? && begun.signals == db.signals && begun.trades == db.trades
      && begun.account.value == (if db.account.Some? then db.account.value else EnsureAccount(db, cfg).value.1)
      && |db.positions| <= |begun.positions| && begun.positions[..|db.positions|] == db.positions
      && DueTrades(begun, cfg, |begun.positions|) == DueTrades(db, cfg, |db.positions|)
  {
    hide DbOk, OpenPosition, DueTrades;
    AccountIsReady(db, cfg);
    var ready := EnsureAccount(db, cfg).value.0;
    if active.Some? {
      OpenPositionKeeps(ready, cfg, active.value);
      OpeningLeavesTradeIds(ready, cfg, active.value, db.signals[active.value]);
    }
    var begun := Begun(db, cfg, active).value.0;
    var n := |db.positions|;
    assert begun.positions[..n] == db.positions == db.positions[..n];
    DueDependsOnItsRows(db, begun, cfg, n);
    if |begun.positions| > n {
      DueUnfolds(begun, cfg, n + 1);
      assert begun.positions[n].signalId == active.value;
    }
  }

  lemma {:induction false} SumNetConcat(a: seq<Trade>, b: seq<Trade>)
    ensures SumNet(a + b) == SumNet(a) + SumNet(b)
  {
    if b == [] {
      assert a + b == a;
    } else {
      SumNetConcat(a, b[..|b| - 1]);
      assert (a + b)[..|a + b| - 1] == a + b[..|b| - 1];
    }
  }

  lemma BalanceIsSum(db: Db)
    requires DbOk(db) && db.account.Some?
    ensures db.account.value.balance == db.account.value.initialBalance + SumNet(db.trades)
  {
  }

  /** RESTART: from any sound rows, with any active signal, one reconcile appends exactly
      the trades owed by the rows the crash left, in table order, leaves the signals alone
      and moves the balance by the sum of their net results. */
  lemma RestartBooksWhatIsOwed(db: Db, cfg: DemoConfig, active: Option<nat>)
    requires DbOk(db) && Operable(cfg) && (active.Some? ==> active.value < |db.signals|)
    ensures Reconcile(db, cfg, active).Success?
    ensures
      var (r, due) := (Reconcile(db, cfg, active).value.0, DueTrades(db, cfg, |db.positions|));
      && DbOk(r) && r.signals == db.signals && r.trades == db.trades + due
      && r.account.Some? && r.account.value.balance == Balance(db, cfg) + SumNet(due)
      && (active.None? ==> |r.positions| == |db.positions|
                           && forall i :: 0 <= i < |db.positions| ==> SameRow(db.positions[i], r.positions[i]))
  {
    hide DbOk, OpenPosition, SettleRows, EnsureAccount, DueTrades, SumNet;
    ReconcileRepairs(db, cfg, active);
    BeginningOwesTheSame(db, cfg, active);
    AccountIsReady(db, cfg);
    var begun := Begun(db, cfg, active).value.0;
    var rows := begun.positions;
    PassBooksWhatIsDue(begun, cfg, |rows|);
    assert rows[..|rows|] == rows;
    var r := Reconcile(db, cfg, active).value.0;
    assert r == SettleRows(begun, cfg, rows).value.0;
    SumNetConcat(begun.trades, DueTrades(begun, cfg, |rows|));
    BalanceIsSum(begun);
    BalanceIsSum(r);
    FreshBalance(db, cfg);
  }

  lemma FreshBalance(db: Db, cfg: DemoConfig)
    requires EnsureAccount(db, cfg).Success?
    ensures EnsureAccount(db, cfg).value.1.balance == Balance(db, cfg)
    ensures db.account.Some? ==> EnsureAccount(db, cfg).value.1 == db.account.value
  {
  }

  /** CRASH EQUIVALENCE: take any signal that hit its target, has a position and still lacks
      its trade, among any number of such signals, and restart any daemon, whatever signal
      of its own is active. The trade booked for it is the one the uncrashed close would
      have booked from the same rows; only its row id may differ. */
  lemma CrashedCloseIsRepaired(db: Db, cfg: DemoConfig, active: Option<nat>, id: nat)
    requires DbOk(db) && Operable(cfg) && (active.Some? ==> active.value < |db.signals|)
    requires id < |db.signals| && HitTarget(db.signals[id].status)
    requires PositionFor(db.positions, id).Some? && TradeFor(db.trades, id).None?
    ensures ClosePosition(db, cfg, id, db.signals[id]).Success?
    ensures ClosePosition(db, cfg, id, db.signals[id]).value.1.Some?
    ensures Reconcile(db, cfg, active).Success?
    ensures
      var (uncrashed, booked) := (ClosePosition(db, cfg, id, db.signals[id]).value.1.value,
                                  TradeFor(Reconcile(db, cfg, active).value.0.trades, id));
      booked.Some? && booked.value.numbers == uncrashed.numbers && booked.value.(id := uncrashed.id) == uncrashed
  {
    hide DbOk, ClosePosition, Reconcile, TradeFor, DueTrades, Owed;
    var k :| 0 <= k < |db.positions| && db.positions[k] == PositionFor(db.positions, id).value;
    SoundPositions(db);
    UnsettledIsOwed(db, cfg, k);
    CloseBooksTheOwedTrade(db, cfg, k);
    RestartBooksWhatIsOwed(db, cfg, active);
    DueFor(db, cfg, |db.positions|, k);
    TradeForConcat(db.trades, DueTrades(db, cfg, |db.positions|), id);
  }

  // --- A crash against a finished close -----------------------------------------

  predicate SameTrade(x: Option<Trade>, y: Option<Trade>) {
    if x.Some? && y.Some? then x.value.(id := y.value.id) == y.value else x.None? && y.None?
  }

  /** Same signals, same balance, and for every signal the same trade or none. */
  ghost predicate SameBooks(a: Db, b: Db) {
    && a.signals == b.signals && a.account.Some? && b.account.Some?
    && a.account.value.balance == b.account.value.balance
    && forall id: nat :: SameTrade(TradeFor(a.trades, id), TradeFor(b.trades, id))
  }

  /** `done` is `db` after the close of its `at`-th position. */
  ghost predicate ClosedOne(db: Db, done: Db, cfg: DemoConfig, at: nat) {
    && DbOk(db) && DbOk(done) && at < |db.positions| && Owed(db, cfg, db.positions[at]) && db.account.Some?
    && done.signals == db.signals && FeeRate(done, cfg) == FeeRate(db, cfg)
    && |done.positions| == |db.positions|
    && (forall i :: 0 <= i < |db.positions| ==> SameRow(db.positions[i], done.positions[i]))
    && done.trades == db.trades + [OwedTrade(db, cfg, db.positions[at], db.nextTradeId)]
    && done.account.Some?
    && done.account.value.balance == db.account.value.balance + NumbersFor(db, cfg, db.positions[at]).value.netPnl
  }

  lemma CloseClosesOne(db: Db, cfg: DemoConfig, at: nat)
    requires DbOk(db) && Operable(cfg) && at < |db.positions| && Owed(db, cfg, db.positions[at])
    ensures
      var id := db.positions[at].signalId;
      && ClosePosition(db, cfg, id, db.signals[id]).Success?
      && ClosedOne(db, ClosePosition(db, cfg, id, db.signals[id]).value.0, cfg, at)
  {
    hide DbOk, ClosePosition, NumbersFor, OwedTrade, Owed;
    CloseBooksTheOwedTrade(db, cfg, at);
    OwedMeans(db, cfg, db.positions[at]);
  }

  /** What a finished close leaves owed of position `i`. */
  lemma StillOwed(db: Db, done: Db, cfg: DemoConfig, at: nat, i: nat, n: nat)
    requires ClosedOne(db, done, cfg, at) && i < |db.positions|
    ensures i == at ==> !Owed(done, cfg, done.positions[i])
    ensures i != at ==> Owed(done, cfg, done.positions[i]) == Owed(db, cfg, db.positions[i])
    ensures Owed(done, cfg, done.positions[i]) ==>
              OwedTrade(done, cfg, done.positions[i], n) == OwedTrade(db, cfg, db.positions[i], n)
  {
    hide DbOk, NumbersFor, TradeFor;
    SoundPositions(db);
    var (p, t) := (db.positions[i], OwedTrade(db, cfg, db.positions[at], db.nextTradeId));
    TradeForConcat(db.trades, [t], p.signalId);
    TradeForOne(t, p.signalId);
    hide Owed, OwedTrade, PositionOk, SignalsOk;
    if i == at {
      OwedMeansUntraded(done, cfg, done.positions[i]);
    } else {
      OtherSignal(db, i, at);
      OwedLasts(db, done, cfg, p, done.positions[i], n);
    }
  }

  lemma OwedMeansUntraded(db: Db, cfg: DemoConfig, p: Position)
    ensures TradeFor(db.trades, p.signalId).Some? ==> !Owed(db, cfg, p)
  {
  }

  lemma OtherSignal(db: Db, i: nat, j: nat)
    requires PositionsOk(db) && i < |db.positions| && j < |db.positions| && i != j
    ensures db.positions[i].signalId != db.positions[j].signalId
  {
  }

  lemma OwedNet(db: Db, cfg: DemoConfig, p: Position, n: nat)
    ensures SumNet(OwedBy(db, cfg, p, n)) == if Owed(db, cfg, p) then OwedTrade(db, cfg, p, n).numbers.netPnl else 0.0
  {
    hide NumbersFor;
    if Owed(db, cfg, p) {
      var t := OwedTrade(db, cfg, p, n);
      assert [t][..0] == [];
    }
  }

  lemma NetIgnoresTheId(db: Db, cfg: DemoConfig, p: Position, n: nat, m: nat)
    requires Owed(db, cfg, p)
    ensures OwedTrade(db, cfg, p, n).numbers == OwedTrade(db, cfg, p, m).numbers == NumbersFor(db, cfg, p).value
    ensures OwedTrade(db, cfg, p, n).(id := m) == OwedTrade(db, cfg, p, m)
  {
  }

  lemma {:induction false} DueLosesOneNet(db: Db, done: Db, cfg: DemoConfig, at: nat, k: nat)
    requires ClosedOne(db, done, cfg, at) && k <= |db.positions|
    ensures SumNet(DueTrades(db, cfg, k))
         == SumNet(DueTrades(done, cfg, k)) + if k > at then NumbersFor(db, cfg, db.positions[at]).value.netPnl else 0.0
  {
    hide ClosedOne, Owed, OwedBy, OwedTrade, NumbersFor, SumNet;
    if k == 0 {
      assert SumNet([]) == 0.0 by { NoNet(); }
    } else {
      var i := k - 1;
      DueLosesOneNet(db, done, cfg, at, i);
      SizesAgree(db, done, cfg, at);
      var (front, back) := (DueTrades(db, cfg, i), DueTrades(done, cfg, i));
      var (n, m) := (db.nextTradeId + |front|, done.nextTradeId + |back|);
      SumNetConcat(front, OwedBy(db, cfg, db.positions[i], n));
      SumNetConcat(back, OwedBy(done, cfg, done.positions[i], m));
      OwedNet(db, cfg, db.positions[i], n);
      OwedNet(done, cfg, done.positions[i], m);
      StillOwed(db, done, cfg, at, i, m);
      if Owed(db, cfg, db.positions[i]) {
        NetIgnoresTheId(db, cfg, db.positions[i], n, m);
      }
    }
  }

  lemma NoNet()
    ensures SumNet([]) == 0.0
  {
  }

  lemma SizesAgree(db: Db, done: Db, cfg: DemoConfig, at: nat)
    requires ClosedOne(db, done, cfg, at)
    ensures |done.positions| == |db.positions| && at < |db.positions| && Owed(db, cfg, db.positions[at])
    ensures PositionsOk(db) && PositionsOk(done)
    ensures forall i :: 0 <= i < |db.positions| ==> done.positions[i].signalId == db.positions[i].signalId
  {
    hide Owed, NumbersFor, OwedTrade, SignalsOk, TradesOk, BalanceOk, PositionOk;
  }

  /** Crashed or not, the books of signal `id` come out alike. */
  lemma SameTradeEitherWay(db: Db, done: Db, cfg: DemoConfig, at: nat, id: nat)
    requires ClosedOne(db, done, cfg, at)
    ensures |done.positions| == |db.positions|
    ensures SameTrade(TradeFor(db.trades + DueTrades(db, cfg, |db.positions|), id),
                      TradeFor(done.trades + DueTrades(done, cfg, |db.positions|), id))
  {
    hide Owed, OwedTrade, NumbersFor, TradeFor, DueTrades, DbOk;
    SizesAgree(db, done, cfg, at);
    var n := |db.positions|;
    var (due, left) := (DueTrades(db, cfg, n), DueTrades(done, cfg, n));
    var t := OwedTrade(db, cfg, db.positions[at], db.nextTradeId);
    OwedNames(db, cfg, db.positions[at], db.nextTradeId);
    TradeForConcat(db.trades, due, id);
    TradeForConcat(done.trades, left, id);
    TradeForConcat(db.trades, [t], id);
    TradeForOne(t, id);
    if i :| 0 <= i < n && db.positions[i].signalId == id {
      DueFor(db, cfg, n, i);
      DueFor(done, cfg, n, i);
      var (a, b) := (db.nextTradeId + |DueTrades(db, cfg, i)|, done.nextTradeId + |DueTrades(done, cfg, i)|);
      StillOwed(db, done, cfg, at, i, b);
      if i != at {
        OtherSignal(db, i, at);
      } else {
        OwedMeans(db, cfg, db.positions[at]);
      }
      if Owed(db, cfg, db.positions[i]) {
        NetIgnoresTheId(db, cfg, db.positions[i], a, b);
        NetIgnoresTheId(db, cfg, db.positions[i], a, db.nextTradeId);
      }
    } else {
      NothingDue(db, cfg, n, id);
      NothingDue(done, cfg, n, id);
      assert db.positions[at].signalId != id;
    }
  }

  lemma OwedNames(db: Db, cfg: DemoConfig, p: Position, n: nat)
    requires Owed(db, cfg, p)
    ensures OwedTrade(db, cfg, p, n).signalId == p.signalId
  {
  }

  lemma ClosedExactlyWhenTraded(db: Db, k: nat)
    requires DbOk(db) && k < |db.positions|
    ensures db.positions[k].closed <==> TradeFor(db.trades, db.positions[k].signalId).Some?
  {
    hide SignalsOk, BalanceOk, PositionOk, TradeOk;
    var id := db.positions[k].signalId;
    TradedMeansFound(db.trades, id);
    if Traded(db.trades, id) {
      var i :| 0 <= i < |db.trades| && db.trades[i].signalId == id;
      assert HasClosedRow(db.positions, db.trades[i]);
    }
  }

  /** CRASH OR NOT: let one signal among any number of unsettled ones be closed before the
      restart, or not. After the restart the books agree: same signals, same balance, the
      same trade for every signal; and without an active signal the same position rows. */
  lemma RestartMakesUpForTheCrash(db: Db, cfg: DemoConfig, active: Option<nat>, id: nat)
    requires DbOk(db) && Operable(cfg) && (active.Some? ==> active.value < |db.signals|)
    requires id < |db.signals| && HitTarget(db.signals[id].status)
    requires PositionFor(db.positions, id).Some? && TradeFor(db.trades, id).None?
    ensures ClosePosition(db, cfg, id, db.signals[id]).Success?
    ensures
      var done := ClosePosition(db, cfg, id, db.signals[id]).value.0;
      && DbOk(done) && done.signals == db.signals
      && Reconcile(db, cfg, active).Success? && Reconcile(done, cfg, active).Success?
      && var (crashed, finished) := (Reconcile(db, cfg, active).value.0, Reconcile(done, cfg, active).value.0);
         SameBooks(crashed, finished) && (active.None? ==> crashed.positions == finished.positions)
  {
    hide DbOk, ClosePosition, Reconcile, TradeFor, DueTrades, Owed, NumbersFor, OwedTrade, SumNet;
    var at :| 0 <= at < |db.positions| && db.positions[at] == PositionFor(db.positions, id).value;
    SoundPositions(db);
    UnsettledIsOwed(db, cfg, at);
    CloseClosesOne(db, cfg, at);
    var done := ClosePosition(db, cfg, id, db.signals[id]).value.0;
    RestartBooksWhatIsOwed(db, cfg, active);
    RestartBooksWhatIsOwed(done, cfg, active);
    DueLosesOneNet(db, done, cfg, at, |db.positions|);
    forall sid: nat ensures SameTrade(TradeFor(db.trades + DueTrades(db, cfg, |db.positions|), sid),
                                      TradeFor(done.trades + DueTrades(done, cfg, |db.positions|), sid)) {
      SameTradeEitherWay(db, done, cfg, at, sid);
    }
    if active.None? {
      var (crashed, finished) := (Reconcile(db, cfg, active).value.0, Reconcile(done, cfg, active).value.0);
      SamePositions(db, done, crashed, finished, cfg, at);
    }
  }

  lemma SamePositions(db: Db, done: Db, a: Db, b: Db, cfg: DemoConfig, at: nat)
    requires ClosedOne(db, done, cfg, at) && DbOk(a) && DbOk(b) && SameBooks(a, b)
    requires |a.positions| == |db.positions|
    requires forall i :: 0 <= i < |db.positions| ==> SameRow(db.positions[i], a.positions[i])
    requires |b.positions| == |done.positions|
    requires forall i :: 0 <= i < |done.positions| ==> SameRow(done.positions[i], b.positions[i])
    ensures a.positions == b.positions
  {
    hide DbOk, TradeFor, Owed, OwedTrade, NumbersFor;
    forall k | 0 <= k < |a.positions| ensures a.positions[k] == b.positions[k] {
      ClosedExactlyWhenTraded(a, k);
      ClosedExactlyWhenTraded(b, k);
      assert SameRow(db.positions[k], done.positions[k]);
      assert SameTrade(TradeFor(a.trades, a.positions[k].signalId), TradeFor(b.trades, a.positions[k].signalId));
    }
  }

  // --- A crash before the demo entry ----------------------------------------------

  lemma OpeningEnsuresTheAccountFirst(db: Db, cfg: DemoConfig, id: nat)
    requires DbOk(db) && Operable(cfg) && id < |db.signals| && db.signals[id].status.Open?
    ensures EnsureAccount(db, cfg).Success?
    ensures OpenPosition(db, cfg, id, db.signals[id])
         == OpenPosition(EnsureAccount(db, cfg).value.0, cfg, id, db.signals[id])
  {
    hide SizePosition, SignalsOk, PositionsOk, TradesOk, AccountOk;
  }

  /** Opening the active signal's position before the restart, or leaving it to the
      restart, ends in the very same rows. */
  lemma RestartMakesUpForTheEntry(db: Db, cfg: DemoConfig, id: nat)
    requires DbOk(db) && Operable(cfg) && id < |db.signals| && db.signals[id].status.Open?
    ensures OpenPosition(db, cfg, id, db.signals[id]).Success?
    ensures
      var filled := OpenPosition(db, cfg, id, db.signals[id]).value.0;
      && DbOk(filled) && filled.signals == db.signals
      && Reconcile(db, cfg, Some(id)).Success? && Reconcile(filled, cfg, Some(id)).Success?
      && Reconcile(db, cfg, Some(id)).value.0 == Reconcile(filled, cfg, Some(id)).value.0
  {
    hide DbOk, OpenPosition, SettleRows, EnsureAccount;
    AccountIsReady(db, cfg);
    OpeningEnsuresTheAccountFirst(db, cfg, id);
    var ready := EnsureAccount(db, cfg).value.0;
    OpenPositionKeeps(ready, cfg, id);
    OpeningTwiceIsOpeningOnce(ready, cfg, id);
    var filled := OpenPosition(ready, cfg, id, ready.signals[id]).value.0;
    AccountIsReady(filled, cfg);
    ReconcileRepairs(db, cfg, Some(id));
    ReconcileRepairs(filled, cfg, Some(id));
  }

  /** A restart never loses a position. */
  lemma RestartKeepsPositions(db: Db, cfg: DemoConfig, active: Option<nat>, id: nat)
    requires DbOk(db) && Operable(cfg) && (active.Some? ==> active.value < |db.signals|)
    requires PositionFor(db.positions, id).Some?
    ensures Reconcile(db, cfg, active).Success?
    ensures PositionFor(Reconcile(db, cfg, active).value.0.positions, id).Some?
  {
    hide DbOk, OpenPosition, SettleRows, EnsureAccount, DueTrades;
    BeginningOwesTheSame(db, cfg, active);
    AccountIsReady(db, cfg);
    ReconcileRepairs(db, cfg, active);
    var begun := Begun(db, cfg, active).value.0;
    var rows := begun.positions;
    PassBooksWhatIsDue(begun, cfg, |rows|);
    assert rows[..|rows|] == rows;
    var k :| 0 <= k < |db.positions| && db.positions[k] == PositionFor(db.positions, id).value;
    var r := Reconcile(db, cfg, active).value.0;
    assert SameRow(begun.positions[..|db.positions|][k], r.positions[k]);
  }
}
