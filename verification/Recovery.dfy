/** The executor run to completion by one process, startup recovery, and the repair
    of the windows a crash can leave (demo/executor.py, signal_engine/recovery.py). */
module Recovery {
  import opened Common
  import opened DemoAccount
  import opened Ledger
  import opened LedgerInvariant

  // --- The executor as a sequence of transactions ----------------------------

  function Computed<T>(r: Calc<T>): Tx<T> {
    match r
    case Success(v) => Success(v)
    case Failure(e) => Failure(Calculation(e))
  }

  function OpenPosition(db: Db, cfg: DemoConfig, id: nat, row: Signal): Tx<(Db, Option<Position>)> {
    if !row.status.Open? then Success((db, None))
    else if PositionFor(db.positions, id).Some? then Success((db, PositionFor(db.positions, id)))
    else
      var ready :- EnsureAccount(db, cfg);
      var (db', a) := ready;
      if a.balance < a.margin || OpenCount(db'.positions) >= MAX_OPEN_POSITIONS then Success((db', None)) else
        var z :- Computed(SizePosition(a, row.levels, cfg.slippageBps));
        var made :- CreatePosition(db', id, row.symbol, row.levels.direction, z.entryPrice, z.quantity, z.positionSize,
                                   a.margin, a.leverage, row.levels.stopLoss, row.levels.takeProfit);
        Success((made.0, Some(made.1)))
  }

  function ClosePosition(db: Db, cfg: DemoConfig, id: nat, row: Signal): Tx<(Db, Option<Trade>)> {
    if !HitTarget(row.status) then Success((db, None))
    else if TradeFor(db.trades, id).Some? then Success((db, TradeFor(db.trades, id)))
    else if PositionFor(db.positions, id).None? then Success((db, None))
    else
      var p := PositionFor(db.positions, id).value;
      var ready :- EnsureAccount(db, cfg);
      var n :- Computed(SettleNumbers(p, row, ready.1.feeRate, cfg.slippageBps));
      var done :- RecordTrade(ready.0, p, id, row.levels.direction, n);
      Success((done.0, Some(done.1)))
  }

  /** Reconcile's step for one listed position row. */
  function SettleRow(db: Db, cfg: DemoConfig, row: Position): Tx<(Db, nat)> {
    if || row.signalId >= |db.signals| || !HitTarget(db.signals[row.signalId].status)
       || TradeFor(db.trades, row.signalId).Some?
    then Success((db, 0))
    else
      var closed :- ClosePosition(db, cfg, row.signalId, db.signals[row.signalId]);
      Success((closed.0, if closed.1.Some? then 1 else 0))
  }

  function SettleRows(db: Db, cfg: DemoConfig, rows: seq<Position>): Tx<(Db, nat)> {
    if rows == [] then Success((db, 0)) else
      var front :- SettleRows(db, cfg, rows[..|rows| - 1]);
      var last :- SettleRow(front.0, cfg, rows[|rows| - 1]);
      Success((last.0, front.1 + last.1))
  }

  /** The start of a repair pass: the account, then the active signal's position. */
  function Begun(db: Db, cfg: DemoConfig, active: Option<nat>): Tx<(Db, Option<Position>)>
    requires active.Some? ==> active.value < |db.signals|
  {
    var ready :- EnsureAccount(db, cfg);
    if active.None? then Success((ready.0, None)) else
      OpenPosition(ready.0, cfg, active.value, db.signals[active.value])
  }

  /** Rows, positions counted as recovered, trades recovered. */
  function Reconcile(db: Db, cfg: DemoConfig, active: Option<nat>): Tx<(Db, nat, nat)>
    requires active.Some? ==> active.value < |db.signals|
  {
    var begun :- Begun(db, cfg, active);
    var settled :- SettleRows(begun.0, cfg, begun.0.positions);
    Success((settled.0, if begun.1.Some? then 1 else 0, settled.1))
  }

  // --- Startup recovery ------------------------------------------------------

  datatype RecoveryOutcome = RecoveredOpen(id: nat) | NoOpenSignal | RecoveryError

  const LIST_LIMIT := 100

  function IdsWithStatus(signals: seq<Signal>, status: Status): (ids: seq<nat>)
    ensures forall i :: 0 <= i < |ids| ==> ids[i] < |signals| && signals[ids[i]].status == status
  {
    if signals == [] then [] else
      var n := |signals| - 1;
      IdsWithStatus(signals[..n], status) + if signals[n].status == status then [n] else []
  }

  function LastPage(all: seq<nat>): seq<nat> {
    if |all| <= LIST_LIMIT then all else all[|all| - LIST_LIMIT..]
  }

  /** `list_signals(status=...)`: newest first, at most the default page. */
  function ListByStatus(signals: seq<Signal>, status: Status): (ids: seq<nat>)
    ensures forall i :: 0 <= i < |ids| ==> ids[i] < |signals| && signals[ids[i]].status == status
  {
    LastPage(IdsWithStatus(signals, status))
  }

  function OfSymbol(signals: seq<Signal>, ids: seq<nat>, symbol: string): (r: seq<nat>)
    requires forall i :: 0 <= i < |ids| ==> ids[i] < |signals|
    ensures forall i :: 0 <= i < |r| ==> r[i] in ids && r[i] < |signals| && signals[r[i]].symbol == symbol
    ensures forall i :: 0 <= i < |ids| && signals[ids[i]].symbol == symbol ==> ids[i] in r
  {
    if ids == [] then [] else
      OfSymbol(signals, ids[..|ids| - 1], symbol)
      + if signals[ids[|ids| - 1]].symbol == symbol then [ids[|ids| - 1]] else []
  }

  function ActiveListing(signals: seq<Signal>): (ids: seq<nat>)
    ensures forall i :: 0 <= i < |ids| ==> ids[i] < |signals| && IsActive(signals[ids[i]].status)
  {
    ListByStatus(signals, PendingEntry) + ListByStatus(signals, Open)
  }

  function Recover(signals: seq<Signal>, symbol: string): RecoveryOutcome {
    var active := OfSymbol(signals, ActiveListing(signals), symbol);
    if active == [] then NoOpenSignal
    else if |active| > 1 then RecoveryError
    else
      var s := signals[active[0]];
      if (s.status.PendingEntry? && s.wasOpened) || !Ordered(s.levels) then RecoveryError else RecoveredOpen(active[0])
  }

  lemma {:induction false} IdsWithStatusIsComplete(signals: seq<Signal>, status: Status)
    ensures forall i :: 0 <= i < |signals| && signals[i].status == status ==> i in IdsWithStatus(signals, status)
    ensures forall i, j :: 0 <= i < j < |IdsWithStatus(signals, status)| ==>
        IdsWithStatus(signals, status)[i] < IdsWithStatus(signals, status)[j]
  {
    if signals != [] {
      IdsWithStatusIsComplete(signals[..|signals| - 1], status);
    }
  }

  ghost predicate NoRepeats(ids: seq<nat>) {
    forall i, j :: 0 <= i < j < |ids| ==> ids[i] != ids[j]
  }

  lemma {:induction false} OfSymbolHasNoRepeats(signals: seq<Signal>, ids: seq<nat>, symbol: string)
    requires forall i :: 0 <= i < |ids| ==> ids[i] < |signals|
    requires NoRepeats(ids)
    ensures NoRepeats(OfSymbol(signals, ids, symbol))
  {
    if ids != [] {
      var n := |ids| - 1;
      OfSymbolHasNoRepeats(signals, ids[..n], symbol);
      var front := OfSymbol(signals, ids[..n], symbol);
      forall i | 0 <= i < |front| ensures front[i] != ids[n] {
        assert front[i] in ids[..n];
        var k :| 0 <= k < n && ids[..n][k] == front[i];
        assert ids[k] != ids[n];
      }
      assert NoRepeats(front + [ids[n]]);
    }
  }

  /** How many newer rows share the status of row `id`. */
  function NewerWithStatus(signals: seq<Signal>, id: nat): nat
    requires id < |signals|
  {
    |IdsWithStatus(signals[id + 1..], signals[id].status)|
  }

  lemma {:induction false} IdsCount(signals: seq<Signal>, k: nat, status: Status)
    requires k <= |signals|
    ensures |IdsWithStatus(signals, status)| ==
        |IdsWithStatus(signals[..k], status)| + |IdsWithStatus(signals[k..], status)|
  {
    if k == |signals| {
      assert signals[..k] == signals;
    } else {
      var n := |signals| - 1;
      IdsCount(signals[..n], k, status);
      assert signals[..n][..k] == signals[..k] && signals[..n][k..] == signals[k..][..n - k];
    }
  }

  lemma {:induction false} IdsPrefix(signals: seq<Signal>, k: nat, status: Status)
    requires k <= |signals|
    ensures IdsWithStatus(signals[..k], status) <= IdsWithStatus(signals, status)
  {
    if k == |signals| {
      assert signals[..k] == signals;
    } else {
      var n := |signals| - 1;
      IdsPrefix(signals[..n], k, status);
      assert signals[..n][..k] == signals[..k];
    }
  }

  lemma IdsEndWith(signals: seq<Signal>, id: nat)
    requires id < |signals|
    ensures
      var upTo := IdsWithStatus(signals[..id + 1], signals[id].status);
      upTo != [] && upTo[|upTo| - 1] == id
  {
    assert signals[..id + 1][id] == signals[id];
  }

  /** Where a row stands in the listing of its own status. */
  lemma RankOfRow(signals: seq<Signal>, id: nat)
    requires id < |signals|
    ensures
      var all := IdsWithStatus(signals, signals[id].status);
      NewerWithStatus(signals, id) < |all| && all[|all| - 1 - NewerWithStatus(signals, id)] == id
  {
    var status := signals[id].status;
    IdsCount(signals, id + 1, status);
    IdsPrefix(signals, id + 1, status);
    IdsEndWith(signals, id);
    hide IdsWithStatus;
  }

  lemma OnLastPageExactlyWhen(all: seq<nat>, at: nat)
    requires at < |all| && forall i, j :: 0 <= i < j < |all| ==> all[i] < all[j]
    ensures all[at] in LastPage(all) <==> |all| - 1 - at < LIST_LIMIT
  {
    var (page, skipped) := (LastPage(all), if |all| <= LIST_LIMIT then 0 else |all| - LIST_LIMIT);
    assert forall k :: 0 <= k < |page| ==> page[k] == all[k + skipped];
    if at >= skipped {
      assert page[at - skipped] == all[at];
    } else {
      forall k | 0 <= k < |page| ensures page[k] != all[at] {
        assert all[at] < all[k + skipped];
      }
    }
  }

  lemma ListedExactlyWhen(signals: seq<Signal>, id: nat)
    requires id < |signals|
    ensures id in ListByStatus(signals, signals[id].status) <==> NewerWithStatus(signals, id) < LIST_LIMIT
  {
    var all := IdsWithStatus(signals, signals[id].status);
    RankOfRow(signals, id);
    IdsWithStatusIsComplete(signals, signals[id].status);
    hide IdsWithStatus, NewerWithStatus, LastPage;
    OnLastPageExactlyWhen(all, |all| - 1 - NewerWithStatus(signals, id));
  }

  lemma ActiveListingIsExact(signals: seq<Signal>, id: nat)
    requires id < |signals| && IsActive(signals[id].status)
    ensures id in ActiveListing(signals) <==> NewerWithStatus(signals, id) < LIST_LIMIT
  {
    ListedExactlyWhen(signals, id);
    hide IdsWithStatus, NewerWithStatus;
    var pending, open := ListByStatus(signals, PendingEntry), ListByStatus(signals, Open);
    assert id in pending ==> signals[id].status.PendingEntry?;
    assert id in open ==> signals[id].status.Open?;
  }

  lemma PageHasNoRepeats(signals: seq<Signal>, status: Status)
    ensures NoRepeats(ListByStatus(signals, status))
  {
    IdsWithStatusIsComplete(signals, status);
    hide IdsWithStatus;
  }

  lemma ActiveListingHasNoRepeats(signals: seq<Signal>)
    ensures NoRepeats(ActiveListing(signals))
  {
    PageHasNoRepeats(signals, PendingEntry);
    PageHasNoRepeats(signals, Open);
    var pending, open := ListByStatus(signals, PendingEntry), ListByStatus(signals, Open);
    hide ListByStatus;
    forall i, j | 0 <= i < |pending| && 0 <= j < |open| ensures pending[i] != open[j] {
      assert signals[pending[i]].status.PendingEntry? && signals[open[j]].status.Open?;
    }
  }

  /** Whatever is listed for a symbol is its one active signal. */
  lemma ListedIsTheActive(signals: seq<Signal>, ids: seq<nat>, symbol: string)
    requires SignalsOk(signals) && forall i :: 0 <= i < |ids| ==> ids[i] < |signals| && IsActive(signals[ids[i]].status)
    ensures
      var (found, active) := (ActiveSignal(signals, symbol, 0), OfSymbol(signals, ids, symbol));
      forall k :: 0 <= k < |active| ==> Some(active[k]) == found && active[k] in ids
  {
    var (found, active) := (ActiveSignal(signals, symbol, 0), OfSymbol(signals, ids, symbol));
    hide OfSymbol;
    forall k | 0 <= k < |active| ensures Some(active[k]) == found {
      var i :| 0 <= i < |ids| && ids[i] == active[k];
      assert ActiveFor(signals[active[k]], symbol);
    }
  }

  lemma ListedForSymbol(signals: seq<Signal>, symbol: string)
    requires SignalsOk(signals)
    ensures
      var found := ActiveSignal(signals, symbol, 0);
      OfSymbol(signals, ActiveListing(signals), symbol)
      == if found.Some? && NewerWithStatus(signals, found.value) < LIST_LIMIT then [found.value] else []
  {
    var (ids, found) := (ActiveListing(signals), ActiveSignal(signals, symbol, 0));
    var active := OfSymbol(signals, ids, symbol);
    var listed := found.Some? && found.value in ids;
    ListedIsTheActive(signals, ids, symbol);
    EmptyUnless(active, found, ids);
    if found.Some? {
      ActiveListingIsExact(signals, found.value);
    }
    if listed {
      ActiveListingHasNoRepeats(signals);
      OfSymbolHasNoRepeats(signals, ids, symbol);
      hide OfSymbol, ActiveListing, NewerWithStatus, SignalsOk, ActiveSignal;
      var at :| 0 <= at < |ids| && ids[at] == found.value;
      assert signals[ids[at]].symbol == symbol && found.value in active;
      OnlyOnce(active, found.value);
    }
  }

  lemma EmptyUnless(active: seq<nat>, id: Option<nat>, ids: seq<nat>)
    requires forall k :: 0 <= k < |active| ==> Some(active[k]) == id && active[k] in ids
    ensures active == [] || (id.Some? && id.value in ids)
  {
    assert active == [] || Some(active[0]) == id;
  }

  /** RECOVERY, exactly: on sound rows it answers what the active-signal query answers,
      except that an active signal with a full listing page of newer rows of the same
      status is not seen. */
  lemma RecoveryFindsTheActiveSignal(db: Db, symbol: string)
    requires SignalsOk(db.signals)
    ensures
      var found := ActiveSignal(db.signals, symbol, 0);
      Recover(db.signals, symbol)
      == if found.Some? && NewerWithStatus(db.signals, found.value) < 100
         then RecoveredOpen(found.value) else NoOpenSignal
  {
    ListedForSymbol(db.signals, symbol);
    hide ActiveListing, OfSymbol, NewerWithStatus;
    var found := ActiveSignal(db.signals, symbol, 0);
    if found.Some? {
      SignalIsOk(db, found.value);
    }
  }

  /** An active signal of the symbol that the two listing pages show. */
  ghost predicate Seen(signals: seq<Signal>, symbol: string, id: nat) {
    id < |signals| && signals[id].symbol == symbol && IsActive(signals[id].status) && NewerWithStatus(signals, id) < 100
  }

  /** RECOVERY ON ANY ROWS, sound or not: a signal is resumed exactly if it is the only one
      seen and its row makes sense; nothing is resumed exactly if none is seen; and
      everything else is refused. */
  lemma RecoveryAnswersExactly(signals: seq<Signal>, symbol: string, id: nat)
    ensures
      var r := Recover(signals, symbol);
      && (r == RecoveredOpen(id) <==>
            && Seen(signals, symbol, id) && (forall k :: Seen(signals, symbol, k) ==> k == id)
            && Ordered(signals[id].levels) && !(signals[id].status.PendingEntry? && signals[id].wasOpened))
      && (r == NoOpenSignal <==> forall k :: !Seen(signals, symbol, k))
  {
    hide OfSymbol, ActiveListing, Seen, IsActive, Ordered, NoRepeats;
    var active := OfSymbol(signals, ActiveListing(signals), symbol);
    SeenAreListed(signals, symbol);
    OnlyMember(active, id);
    if active != [] {
      assert active[0] in active;
    }
  }

  lemma SeenAreListed(signals: seq<Signal>, symbol: string)
    ensures
      var active := OfSymbol(signals, ActiveListing(signals), symbol);
      NoRepeats(active) && forall k :: k in active <==> Seen(signals, symbol, k)
  {
    var ids := ActiveListing(signals);
    ActiveListingHasNoRepeats(signals);
    OfSymbolHasNoRepeats(signals, ids, symbol);
    hide OfSymbol, ActiveListing, NewerWithStatus, NoRepeats;
    forall k: nat ensures k in OfSymbol(signals, ids, symbol) <==> Seen(signals, symbol, k) {
      if k < |signals| && IsActive(signals[k].status) {
        ActiveListingIsExact(signals, k);
      }
    }
  }

  lemma OnlyMember(ids: seq<nat>, id: nat)
    requires NoRepeats(ids)
    ensures ids == [id] <==> id in ids && forall k :: k in ids ==> k == id
  {
    if id in ids && |ids| >= 2 {
      assert ids[0] != ids[1] && ids[0] in ids && ids[1] in ids;
    }
  }

  /** Pending signals of `n` different symbols, "A", "AA" and so on: all valid names. */
  function Crowd(n: nat): (signals: seq<Signal>)
    ensures |signals| == n
    ensures forall i :: 0 <= i < n ==>
              && |signals[i].symbol| == i + 1 && (forall k :: 0 <= k <= i ==> signals[i].symbol[k] == 'A')
              && signals[i].status.PendingEntry? && SignalOk(signals[i])
  {
    seq(n, i requires 0 <= i < n =>
      Signal(seq(i + 1, _ => 'A'), Levels(Long, 100.0, 90.0, 120.0), PendingEntry, false, None, None))
  }

  lemma {:induction false} AllOfThem(signals: seq<Signal>, status: Status)
    requires forall i :: 0 <= i < |signals| ==> signals[i].status == status
    ensures |IdsWithStatus(signals, status)| == |signals|
  {
    if signals != [] {
      AllOfThem(signals[..|signals| - 1], status);
    }
  }

  /** With more than one page of active symbols a restart does not see the oldest. */
  lemma RecoveryMissesBeyondOnePage()
    ensures
      var signals := Crowd(101);
      SignalsOk(signals) && ActiveSignal(signals, "A", 0) == Some(0) && Recover(signals, "A") == NoOpenSignal
  {
    var signals := Crowd(101);
    hide Crowd;
    assert SignalsOk(signals);
    assert signals[0].symbol == "A";
    AllOfThem(signals[1..], PendingEntry);
    RecoveryFindsTheActiveSignal(Db(signals, None, [], [], 0, 0), "A");
  }

  /** The symbols of the rows with a status. */
  function SymbolsWithStatus(signals: seq<Signal>, status: Status): set<string> {
    set i | 0 <= i < |signals| && signals[i].status == status :: signals[i].symbol
  }

  lemma SymbolsOfLastRow(signals: seq<Signal>, status: Status)
    requires signals != []
    ensures
      var front, last := signals[..|signals| - 1], signals[|signals| - 1];
      SymbolsWithStatus(signals, status)
      == SymbolsWithStatus(front, status) + if last.status == status then {last.symbol} else {}
  {
    var front, last := signals[..|signals| - 1], signals[|signals| - 1];
    var before, after := SymbolsWithStatus(front, status), SymbolsWithStatus(signals, status);
    forall x | x in before ensures x in after {
      var i :| 0 <= i < |front| && front[i].status == status && front[i].symbol == x;
      assert signals[i] == front[i];
    }
    forall x | x in after && !(last.status == status && x == last.symbol) ensures x in before {
      var i :| 0 <= i < |signals| && signals[i].status == status && signals[i].symbol == x;
      assert signals[i] == front[i];
    }
  }

  /** On sound rows an active status is listed once per symbol. */
  lemma {:induction false} OneRowPerSymbol(signals: seq<Signal>, status: Status)
    requires OneActivePerSymbol(signals) && IsActive(status)
    ensures |IdsWithStatus(signals, status)| == |SymbolsWithStatus(signals, status)|
  {
    if signals != [] {
      var front, last := signals[..|signals| - 1], signals[|signals| - 1];
      OneRowPerSymbol(front, status);
      SymbolsOfLastRow(signals, status);
      assert last.status == status ==> last.symbol !in SymbolsWithStatus(front, status);
    }
  }

  lemma SubsetIsNoLarger(a: set<string>, b: set<string>)
    requires a <= b
    ensures |a| <= |b|
  {
    assert b == a + (b - a);
  }

  /** RECOVERY IS COMPLETE for a fixed set of at most one page of symbols, such as the
      three the program ships with: on sound rows it answers what the query answers. */
  lemma RecoveryIsCompleteForFewSymbols(db: Db, names: set<string>, symbol: string)
    requires SignalsOk(db.signals) && |names| <= 100
    requires forall i :: 0 <= i < |db.signals| ==> db.signals[i].symbol in names
    ensures
      var found := ActiveSignal(db.signals, symbol, 0);
      Recover(db.signals, symbol) == if found.Some? then RecoveredOpen(found.value) else NoOpenSignal
  {
    RecoveryFindsTheActiveSignal(db, symbol);
    var found := ActiveSignal(db.signals, symbol, 0);
    if found.Some? {
      var status := db.signals[found.value].status;
      RankOfRow(db.signals, found.value);
      OneRowPerSymbol(db.signals, status);
      SubsetIsNoLarger(SymbolsWithStatus(db.signals, status), names);
    }
  }

  lemma OnlyOnce(ids: seq<nat>, id: nat)
    requires NoRepeats(ids) && id in ids && forall k :: 0 <= k < |ids| ==> ids[k] == id
    ensures ids == [id]
  {
    if |ids| > 1 {
      Differ(ids, 0, 1);
    }
  }

  lemma Differ(ids: seq<nat>, i: nat, j: nat)
    requires NoRepeats(ids) && i < j < |ids|
    ensures ids[i] != ids[j]
  {
  }

  // --- Preservation and success ----------------------------------------------

  /** Configuration the ledger accepts: positive money, a fee, slippage below 100%. */
  predicate Operable(cfg: DemoConfig) {
    && cfg.initialBalance > 0.0 && cfg.margin > 0.0 && cfg.leverage >= 1 && cfg.riskPercent > 0.0 && cfg.feeRate > 0.0
    && 0.0 <= cfg.slippageBps < 10000.0
  }

  lemma SlippageStaysPositive(bps: real, d: Direction, entering: bool)
    requires 0.0 <= bps < 10000.0
    ensures SlippageFactor(bps, d, entering) > 0.0
    ensures entering && d.Long? ==> SlippageFactor(bps, d, entering) >= 1.0
    ensures entering && d.Short? ==> SlippageFactor(bps, d, entering) <= 1.0
  {
    assert bps / 10000.0 < 1.0;
  }

  lemma FilledEntryClearsTheStop(l: Levels, cfg: DemoConfig)
    requires Operable(cfg) && Ordered(l) && PositiveLevels(l)
    ensures FilledEntry(l, cfg.slippageBps) > 0.0 && FilledEntry(l, cfg.slippageBps) != l.stopLoss
  {
    var f := SlippageFactor(cfg.slippageBps, l.direction, true);
    SlippageStaysPositive(cfg.slippageBps, l.direction, true);
    hide SlippageFactor;
    ScaledPrice(f, l.entry, FilledEntry(l, cfg.slippageBps));
  }

  lemma ScaledPrice(f: real, price: real, scaled: real)
    requires f > 0.0 && price > 0.0 && scaled == price * f
    ensures scaled > 0.0
    ensures f >= 1.0 ==> scaled >= price
    ensures f <= 1.0 ==> scaled <= price
  {
    MulStrict(0.0, f, price);
    if f >= 1.0 {
      MulMono(1.0, f, price);
    }
    if f <= 1.0 {
      MulMono(f, 1.0, price);
    }
  }

  /** A funded account can always size a sound signal. */
  lemma SizingAlwaysWorks(a: Account, l: Levels, cfg: DemoConfig)
    requires Operable(cfg) && Ordered(l) && PositiveLevels(l)
    requires a.balance >= a.margin > 0.0 && a.leverage >= 1 && a.riskPercent > 0.0
    ensures SizePosition(a, l, cfg.slippageBps).Success?
    ensures
      var z := SizePosition(a, l, cfg.slippageBps).value;
      z.entryPrice > 0.0 && z.quantity > 0.0 && z.positionSize > 0.0
  {
    hide ResolveQuantity, FilledEntry;
    FilledEntryClearsTheStop(l, cfg);
    var entry := FilledEntry(l, cfg.slippageBps);
    SizingSucceedsExactlyWhenSizable(a.balance, a.margin, a.leverage, a.riskPercent, entry, l.stopLoss);
    var sized := ResolveQuantity(a.balance, a.margin, a.leverage, a.riskPercent, entry, l.stopLoss).value;
    QuantityIsGreatestWithinBothCaps(a.balance, a.margin, a.leverage, a.riskPercent, entry, l.stopLoss, sized.0);
    MulStrict(0.0, sized.0, entry);
  }

  /** A position of a TP/SL signal can always be settled, with a positive fee. */
  lemma SettlingAlwaysWorks(p: Position, s: Signal, feeRate: real, cfg: DemoConfig)
    requires Operable(cfg) && SignalOk(s) && HitTarget(s.status) && feeRate > 0.0
    requires p.entryPrice > 0.0 && p.quantity > 0.0 && p.positionSize > 0.0
    ensures SettleNumbers(p, s, feeRate, cfg.slippageBps).Success?
    ensures
      var n := SettleNumbers(p, s, feeRate, cfg.slippageBps).value;
      n.exitPrice > 0.0 && n.fee > 0.0
  {
    var f := SlippageFactor(cfg.slippageBps, s.levels.direction, false);
    SlippageStaysPositive(cfg.slippageBps, s.levels.direction, false);
    hide SlippageFactor;
    var exit := s.closePrice.value * f;
    MulStrict(0.0, s.closePrice.value, f);
    FeesArePositive(p.positionSize, exit, p.quantity, feeRate);
    hide TotalFee;
  }

  lemma FeesArePositive(notional: real, exit: real, quantity: real, feeRate: real)
    requires notional > 0.0 && exit > 0.0 && quantity > 0.0 && feeRate > 0.0
    ensures TotalFee(notional, exit, quantity, feeRate).Success?
    ensures TotalFee(notional, exit, quantity, feeRate).value > 0.0
  {
    MulStrict(0.0, notional, feeRate);
    MulStrict(0.0, exit, quantity);
    MulStrict(0.0, exit * quantity, feeRate);
  }

  lemma OpenPositionKeeps(db: Db, cfg: DemoConfig, id: nat)
    requires DbOk(db) && Operable(cfg) && id < |db.signals|
    ensures OpenPosition(db, cfg, id, db.signals[id]).Success?
    ensures
      var r := OpenPosition(db, cfg, id, db.signals[id]).value.0;
      && DbOk(r) && r.signals == db.signals && r.trades == db.trades
      && (db.account.Some? ==> r.account == db.account)
      && (r.positions == db.positions
          || (exists p: Position ::
                r.positions == db.positions + [p] && p.signalId == id && db.signals[id].status.Open?))
  {
    hide SizePosition, PositionsOk, TradesOk, BalanceOk, PositionFor;
    var row := db.signals[id];
    assert SignalOk(row);
    if row.status.Open? && PositionFor(db.positions, id).None? {
      EnsureAccountKeeps(db, cfg);
      var (ready, a) := EnsureAccount(db, cfg).value;
      AccountIsFunded(ready);
      if a.balance >= a.margin && OpenCount(ready.positions) < MAX_OPEN_POSITIONS {
        SizingAlwaysWorks(a, row.levels, cfg);
        var z := SizePosition(a, row.levels, cfg.slippageBps).value;
        CreatePositionKeeps(ready, id, z.entryPrice, z.quantity, z.positionSize, a.margin, a.leverage);
      }
    }
  }

  lemma AccountIsFunded(db: Db)
    requires BalanceOk(db) && db.account.Some?
    ensures AccountOk(db.account.value, db.trades)
  {
  }

  /** What one settled row does to the tables. */
  ghost predicate SettledBy(db: Db, next: Db, id: nat) {
    && next.signals == db.signals && next.account.Some?
    && |next.positions| == |db.positions|
    && (forall k :: 0 <= k < |db.positions| ==>
          && next.positions[k].signalId == db.positions[k].signalId
          && (db.positions[k].closed ==> next.positions[k].closed))
    && |next.trades| == |db.trades| + 1 && next.trades[..|db.trades|] == db.trades
    && next.trades[|db.trades|].signalId == id
  }

  lemma ClosePositionSettles(db: Db, cfg: DemoConfig, id: nat)
    requires DbOk(db) && Operable(cfg) && id < |db.signals| && HitTarget(db.signals[id].status)
    requires TradeFor(db.trades, id).None? && PositionFor(db.positions, id).Some?
    ensures ClosePosition(db, cfg, id, db.signals[id]).Success?
    ensures
      var r := ClosePosition(db, cfg, id, db.signals[id]).value;
      DbOk(r.0) && r.1.Some? && SettledBy(db, r.0, id)
  {
    hide SettleNumbers, SettledBy, PositionsOk, TradesOk, SignalsOk, PositionFor, RowBelongs;
    var p, row := PositionFor(db.positions, id).value, db.signals[id];
    assert SignalOk(row) by { SignalIsOk(db, id); }
    EnsureAccountKeeps(db, cfg);
    AccountExistsWithPositions(db, cfg, id);
    AccountIsFunded(db);
    FoundPosition(db, id);
    SettlingAlwaysWorks(p, row, db.account.value.feeRate, cfg);
    var n := SettleNumbers(p, row, db.account.value.feeRate, cfg.slippageBps).value;
    assert PositionById(db.positions, p.id).Some?;
    RecordTradeKeeps(db, p, id, n);
    RecordTradeSettles(db, p, id, n);
  }

  lemma SignalIsOk(db: Db, id: nat)
    requires SignalsOk(db.signals) && id < |db.signals|
    ensures SignalOk(db.signals[id])
  {
  }

  lemma AccountExistsWithPositions(db: Db, cfg: DemoConfig, id: nat)
    requires DbOk(db) && PositionFor(db.positions, id).Some? && EnsureAccount(db, cfg).Success?
    ensures db.account.Some? && EnsureAccount(db, cfg).value == (db, db.account.value)
  {
    hide SignalsOk, PositionsOk, TradesOk;
  }

  lemma FoundPosition(db: Db, id: nat)
    requires PositionsOk(db) && PositionFor(db.positions, id).Some?
    ensures
      var p := PositionFor(db.positions, id).value;
      && p.signalId == id && p.entryPrice > 0.0 && p.quantity > 0.0 && p.positionSize > 0.0 && p.margin > 0.0
      && p.leverage >= 1
      && RowBelongs(db.positions, p.id, id) && PositionById(db.positions, p.id).Some?
  {
    var p := PositionFor(db.positions, id).value;
    var at :| 0 <= at < |db.positions| && db.positions[at] == p;
  }

  lemma RecordTradeSettles(db: Db, p: Position, id: nat, n: Numbers)
    requires id < |db.signals| && RecordTrade(db, p, id, db.signals[id].levels.direction, n).Success?
    ensures SettledBy(db, RecordTrade(db, p, id, db.signals[id].levels.direction, n).value.0, id)
  {
  }

  // --- Reconcile repairs -----------------------------------------------------

  ghost predicate NeedsNothing(db: Db, id: nat) {
    id < |db.signals| && HitTarget(db.signals[id].status) ==> Traded(db.trades, id)
  }

  /** No TP/SL signal with a position lacks its trade. */
  ghost predicate AllSettled(db: Db) {
    forall k :: 0 <= k < |db.positions| ==> NeedsNothing(db, db.positions[k].signalId)
  }

  /** The pass so far: rows before `k` are settled, the tables are otherwise as listed. */
  ghost predicate PassOk(start: Db, now: Db, rows: seq<Position>, k: nat) {
    && k <= |rows| && DbOk(now) && now.signals == start.signals
    && |now.positions| == |rows|
    && (forall i :: 0 <= i < |rows| ==> now.positions[i].signalId == rows[i].signalId)
    && (forall i :: 0 <= i < k ==> NeedsNothing(now, rows[i].signalId))
  }

  lemma TradedMeansFound(trades: seq<Trade>, id: nat)
    ensures Traded(trades, id) <==> TradeFor(trades, id).Some?
  {
    if TradeFor(trades, id).Some? {
      var i :| 0 <= i < |trades| && trades[i] == TradeFor(trades, id).value;
    }
  }

  lemma PositionMeansFound(positions: seq<Position>, k: nat)
    requires k < |positions|
    ensures PositionFor(positions, positions[k].signalId).Some?
  {
  }

  lemma SettleRowAdvances(start: Db, now: Db, cfg: DemoConfig, rows: seq<Position>, k: nat)
    requires Operable(cfg) && k < |rows| && PassOk(start, now, rows, k)
    ensures SettleRow(now, cfg, rows[k]).Success?
    ensures PassOk(start, SettleRow(now, cfg, rows[k]).value.0, rows, k + 1)
  {
    hide DbOk, ClosePosition;
    var id := rows[k].signalId;
    TradedMeansFound(now.trades, id);
    if id < |now.signals| && HitTarget(now.signals[id].status) && TradeFor(now.trades, id).None? {
      PositionMeansFound(now.positions, k);
      ClosePositionSettles(now, cfg, id);
      var next := ClosePosition(now, cfg, id, now.signals[id]).value.0;
      forall i | 0 <= i < k + 1 ensures NeedsNothing(next, rows[i].signalId) {
        if i < k && rows[i].signalId < |next.signals| && HitTarget(next.signals[rows[i].signalId].status) {
          var t :| 0 <= t < |now.trades| && now.trades[t].signalId == rows[i].signalId;
          assert next.trades[t] == next.trades[..|now.trades|][t] == now.trades[t];
        } else if i == k {
          assert next.trades[|now.trades|].signalId == id;
        }
      }
    }
  }

  lemma {:induction false} SettleRowsRepairs(db: Db, cfg: DemoConfig, rows: seq<Position>, k: nat)
    requires DbOk(db) && Operable(cfg) && rows == db.positions && k <= |rows|
    ensures SettleRows(db, cfg, rows[..k]).Success?
    ensures PassOk(db, SettleRows(db, cfg, rows[..k]).value.0, rows, k)
  {
    hide DbOk, SettleRow;
    if k > 0 {
      SettleRowsRepairs(db, cfg, rows, k - 1);
      assert rows[..k][..k - 1] == rows[..k - 1];
      SettleRowAdvances(db, SettleRows(db, cfg, rows[..k - 1]).value.0, cfg, rows, k - 1);
    }
  }

  /** REPAIR: one sequential pass from any sound state succeeds, keeps the ledger sound,
      leaves every signal row alone, and no TP/SL signal with a position lacks a trade. */
  lemma ReconcileRepairs(db: Db, cfg: DemoConfig, active: Option<nat>)
    requires DbOk(db) && Operable(cfg) && (active.Some? ==> active.value < |db.signals|)
    ensures Reconcile(db, cfg, active).Success?
    ensures
      var r := Reconcile(db, cfg, active).value.0;
      DbOk(r) && AllSettled(r) && r.signals == db.signals && r.account.Some?
  {
    hide DbOk, OpenPosition, SettleRows, EnsureAccount;
    AccountIsReady(db, cfg);
    var ready := EnsureAccount(db, cfg).value.0;
    if active.Some? {
      OpenPositionKeeps(ready, cfg, active.value);
    }
    var begun := Begun(db, cfg, active).value.0;
    var rows := begun.positions;
    SettleRowsRepairs(begun, cfg, rows, |rows|);
    assert rows[..|rows|] == rows;
    SettleKeepsAccount(begun, cfg, rows);
  }

  lemma AccountIsReady(db: Db, cfg: DemoConfig)
    requires DbOk(db) && Operable(cfg)
    ensures EnsureAccount(db, cfg).Success?
    ensures
      var r := EnsureAccount(db, cfg).value.0;
      DbOk(r) && r.account.Some? && r.signals == db.signals && r.positions == db.positions && r.trades == db.trades
      && (db.account.Some? ==> r == db)
  {
    EnsureAccountKeeps(db, cfg);
  }

  lemma {:induction false} SettleKeepsAccount(db: Db, cfg: DemoConfig, rows: seq<Position>)
    requires db.account.Some? && SettleRows(db, cfg, rows).Success?
    ensures SettleRows(db, cfg, rows).value.0.account.Some?
  {
    hide SettleNumbers;
    if rows != [] {
      SettleKeepsAccount(db, cfg, rows[..|rows| - 1]);
    }
  }

  // --- Fixpoint --------------------------------------------------------------

  lemma {:induction false} SettledRowsAreLeftAlone(db: Db, cfg: DemoConfig, rows: seq<Position>)
    requires forall k :: 0 <= k < |rows| ==> NeedsNothing(db, rows[k].signalId)
    ensures SettleRows(db, cfg, rows) == Success((db, 0))
  {
    hide ClosePosition;
    if rows != [] {
      var n := |rows| - 1;
      SettledRowsAreLeftAlone(db, cfg, rows[..n]);
      TradedMeansFound(db.trades, rows[n].signalId);
    }
  }

  /** Once everything is settled a pass can only open the active signal's position. */
  lemma SettledPassOnlyOpens(db: Db, cfg: DemoConfig, active: Option<nat>)
    requires DbOk(db) && Operable(cfg) && AllSettled(db) && db.account.Some?
    requires (active.Some? ==> active.value < |db.signals|)
    ensures Reconcile(db, cfg, active).Success?
    ensures
      var r := Reconcile(db, cfg, active).value.0;
      && r == (if active.Some? then OpenPosition(db, cfg, active.value, db.signals[active.value]).value.0 else db)
      && DbOk(r) && AllSettled(r) && r.account == db.account && r.signals == db.signals
  {
    hide DbOk, OpenPosition, SettleRows, EnsureAccount;
    AccountIsReady(db, cfg);
    if active.Some? {
      OpenPositionKeeps(db, cfg, active.value);
    }
    var begun := if active.Some? then OpenPosition(db, cfg, active.value, db.signals[active.value]).value.0 else db;
    SettledRowsAreLeftAlone(begun, cfg, begun.positions);
  }

  lemma OpeningTwiceIsOpeningOnce(db: Db, cfg: DemoConfig, id: nat)
    requires DbOk(db) && Operable(cfg) && db.account.Some? && id < |db.signals|
    ensures OpenPosition(db, cfg, id, db.signals[id]).Success?
    ensures
      var once := OpenPosition(db, cfg, id, db.signals[id]).value.0;
      && OpenPosition(once, cfg, id, db.signals[id]).Success?
      && OpenPosition(once, cfg, id, db.signals[id]).value.0 == once
  {
    hide DbOk, SizePosition;
    OpenPositionKeeps(db, cfg, id);
    AccountIsReady(db, cfg);
    var once := OpenPosition(db, cfg, id, db.signals[id]).value.0;
    if once != db {
      assert once.positions[|db.positions|].signalId == id;
    }
  }

  /** FIXPOINT: after at most two sequential passes the ledger no longer changes. */
  lemma TwoPassesReachAFixpoint(db: Db, cfg: DemoConfig, active: Option<nat>)
    requires DbOk(db) && Operable(cfg) && (active.Some? ==> active.value < |db.signals|)
    ensures Reconcile(db, cfg, active).Success?
    ensures
      var one := Reconcile(db, cfg, active).value.0;
      && one.signals == db.signals && Reconcile(one, cfg, active).Success?
      && var two := Reconcile(one, cfg, active).value.0;
         && two.signals == db.signals && Reconcile(two, cfg, active).Success?
         && Reconcile(two, cfg, active).value.0 == two
  {
    hide DbOk, OpenPosition, Reconcile, AllSettled;
    ReconcileRepairs(db, cfg, active);
    var one := Reconcile(db, cfg, active).value.0;
    SettledPassOnlyOpens(one, cfg, active);
    var two := Reconcile(one, cfg, active).value.0;
    SettledPassOnlyOpens(two, cfg, active);
    if active.Some? {
      OpeningTwiceIsOpeningOnce(one, cfg, active.value);
    }
  }

  // --- Crash equivalence -----------------------------------------------------

  /** `id` is the one TP/SL signal whose position still lacks a trade. */
  ghost predicate OnlyUnsettled(db: Db, id: nat) {
    && id < |db.signals| && HitTarget(db.signals[id].status)
    && PositionFor(db.positions, id).Some? && TradeFor(db.trades, id).None?
    && forall k :: 0 <= k < |db.positions| && db.positions[k].signalId != id ==>
         NeedsNothing(db, db.positions[k].signalId)
  }

  lemma {:induction false} SkippedRowsAreLeftAlone(db: Db, cfg: DemoConfig, id: nat, rows: seq<Position>)
    requires OnlyUnsettled(db, id) && |rows| <= |db.positions| && rows == db.positions[..|rows|]
    requires forall k :: 0 <= k < |rows| ==> rows[k].signalId != id
    ensures SettleRows(db, cfg, rows) == Success((db, 0))
  {
    hide ClosePosition, OnlyUnsettled;
    assert forall k :: 0 <= k < |rows| ==> rows[k] == db.positions[k];
    OthersAreTraded(db, id);
    SettledRowsAreLeftAlone(db, cfg, rows);
  }

  lemma OthersAreTraded(db: Db, id: nat)
    requires OnlyUnsettled(db, id)
    ensures forall k :: 0 <= k < |db.positions| && db.positions[k].signalId != id ==>
        NeedsNothing(db, db.positions[k].signalId)
  {
  }

  /** From the row of `id` on, the pass stands where closing that one signal stands. */
  lemma {:induction false} PassEqualsOneClose(db: Db, cfg: DemoConfig, id: nat, at: nat, k: nat)
    requires DbOk(db) && Operable(cfg) && OnlyUnsettled(db, id)
    requires at < k <= |db.positions| && db.positions[at].signalId == id
    ensures ClosePosition(db, cfg, id, db.signals[id]).Success?
    ensures SettleRows(db, cfg, db.positions[..k]).Success?
    ensures SettleRows(db, cfg, db.positions[..k]).value.0 == ClosePosition(db, cfg, id, db.signals[id]).value.0
  {
    hide ClosePosition, DbOk, SettledBy;
    ClosePositionSettles(db, cfg, id);
    var done := ClosePosition(db, cfg, id, db.signals[id]).value.0;
    assert db.positions[..k][..k - 1] == db.positions[..k - 1];
    if k == at + 1 {
      SignalsOfOtherRows(db, at, id);
      SkippedRowsAreLeftAlone(db, cfg, id, db.positions[..at]);
    } else {
      PassEqualsOneClose(db, cfg, id, at, k - 1);
      var row := db.positions[k - 1];
      RowIsTradedAfterwards(db, done, id, k - 1);
      TradedMeansFound(done.trades, row.signalId);
    }
  }

  lemma RowIsTradedAfterwards(db: Db, done: Db, id: nat, k: nat)
    requires OnlyUnsettled(db, id) && SettledBy(db, done, id) && k < |db.positions|
    ensures done.signals == db.signals
    ensures NeedsNothing(done, db.positions[k].signalId)
  {
    var sid := db.positions[k].signalId;
    if sid == id {
      assert done.trades[|db.trades|].signalId == id;
    } else if sid < |db.signals| && HitTarget(db.signals[sid].status) {
      var t :| 0 <= t < |db.trades| && db.trades[t].signalId == sid;
      assert done.trades[t] == done.trades[..|db.trades|][t];
    }
  }

  lemma SignalsOfOtherRows(db: Db, at: nat, id: nat)
    requires DbOk(db) && at < |db.positions| && db.positions[at].signalId == id
    ensures forall k :: 0 <= k < at ==> db.positions[..at][k].signalId != id
  {
    hide SignalsOk, TradesOk, BalanceOk;
  }

  /** CRASH EQUIVALENCE: when the process dies anywhere between the TP/SL transition and
      the demo write, restarting -- recovery finds no active signal, reconcile runs --
      reaches the very rows the uncrashed close would have written: same trade, same
      numbers, same balance and peak. */
  lemma RestartEqualsUncrashedClose(db: Db, cfg: DemoConfig, id: nat)
    requires DbOk(db) && Operable(cfg) && OnlyUnsettled(db, id)
    ensures ClosePosition(db, cfg, id, db.signals[id]).Success?
    ensures ClosePosition(db, cfg, id, db.signals[id]).value.1.Some?
    ensures Reconcile(db, cfg, None).Success?
    ensures Reconcile(db, cfg, None).value.0 == ClosePosition(db, cfg, id, db.signals[id]).value.0
  {
    hide DbOk, ClosePosition, SettleRows, OnlyUnsettled, SettledBy;
    UnsettledHasAPosition(db, id);
    ClosePositionSettles(db, cfg, id);
    AccountIsReady(db, cfg);
    AccountIsThere(db, cfg, id);
    var at :| 0 <= at < |db.positions| && db.positions[at] == PositionFor(db.positions, id).value;
    assert db.positions[..|db.positions|] == db.positions;
    PassEqualsOneClose(db, cfg, id, at, |db.positions|);
  }

  lemma AccountIsThere(db: Db, cfg: DemoConfig, id: nat)
    requires DbOk(db) && Operable(cfg) && PositionFor(db.positions, id).Some?
    ensures db.account.Some?
  {
    hide SignalsOk, PositionsOk, TradesOk;
  }

  lemma UnsettledHasAPosition(db: Db, id: nat)
    requires OnlyUnsettled(db, id)
    ensures id < |db.signals| && HitTarget(db.signals[id].status)
    ensures PositionFor(db.positions, id).Some? && TradeFor(db.trades, id).None?
  {
  }
}
