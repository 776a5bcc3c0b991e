/** What a position row says, and what its trade repeats, in every state a run of daemons
    reaches: the fill and the size, from the signal and an account that was really read. */
module PositionLaws {
  import opened Common
  import opened DemoAccount
  import opened Ledger
  import opened LedgerInvariant
  import opened Daemons
  import opened LedgerSafety
  import opened LedgerTheorems
  import R = Recovery

  // --- One row --------------------------------------------------------------------

  /** A quantity within the margin cap and the risk cap of account `a`. */
  predicate WithinCaps(a: Account, price: real, stop: real, q: real) {
    q * price <= a.margin * a.leverage as real && q * Abs(price - stop) <= a.balance * a.riskPercent / 100.0
  }

  /** A LONG pays more than the signal's entry, a SHORT gets less, by the slippage. */
  function AdverseEntry(l: Levels, slippageBps: real): real {
    if l.direction.Long? then l.entry * (1.0 + slippageBps / 10000.0) else l.entry * (1.0 - slippageBps / 10000.0)
  }

  ghost predicate SizedRight(l: Levels, slippageBps: real, a: Account, z: Sizing) {
    && z.entryPrice == AdverseEntry(l, slippageBps) && z.positionSize == z.quantity * z.entryPrice
    && forall q :: WithinCaps(a, z.entryPrice, l.stopLoss, q) <==> q <= z.quantity
  }

  /** The row of a position opened for signal `s` on account `a`. */
  ghost predicate RowRight(s: Signal, p: Position, slippageBps: real, a: Account) {
    && SizedRight(s.levels, slippageBps, a, Sizing(p.entryPrice, p.quantity, p.positionSize))
    && p.symbol == s.symbol && p.side == s.levels.direction
    && p.stopLoss == s.levels.stopLoss && p.takeProfit == s.levels.takeProfit
    && p.margin == a.margin && p.leverage == a.leverage
  }

  lemma SizingIsRight(a: Account, l: Levels, slippageBps: real)
    requires SizePosition(a, l, slippageBps).Success?
    ensures SizedRight(l, slippageBps, a, SizePosition(a, l, slippageBps).value)
  {
    hide ResolveQuantity;
    var z := SizePosition(a, l, slippageBps).value;
    var price := FilledEntry(l, slippageBps);
    assert price == AdverseEntry(l, slippageBps);
    hide FilledEntry, AdverseEntry;
    SizingSucceedsExactlyWhenSizable(a.balance, a.margin, a.leverage, a.riskPercent, price, l.stopLoss);
    forall q ensures WithinCaps(a, price, l.stopLoss, q) <==> q <= z.quantity {
      QuantityIsGreatestWithinBothCaps(a.balance, a.margin, a.leverage, a.riskPercent, price, l.stopLoss, q);
    }
  }

  /** A created row is the last one, carries the sizing, and is OPEN. */
  lemma CreatedRowIsRight(db: Db, id: nat, row: Signal, a: Account, slippageBps: real)
    requires SizePosition(a, row.levels, slippageBps).Success?
    ensures
      var z := SizePosition(a, row.levels, slippageBps).value;
      var r := CreatePosition(db, id, row.symbol, row.levels.direction, z.entryPrice, z.quantity, z.positionSize,
                              a.margin, a.leverage, row.levels.stopLoss, row.levels.takeProfit);
      r.Success? && r.value.0 != db ==>
        && r.value.0 == db.(positions := db.positions + [r.value.1], nextPositionId := db.nextPositionId + 1)
        && r.value.1.signalId == id && !r.value.1.closed && RowRight(row, r.value.1, slippageBps, a)
  {
    hide SizePosition, SizedRight;
    SizingIsRight(a, row.levels, slippageBps);
  }

  // --- One sequential call ----------------------------------------------------------

  /** OPENING, exactly: an OPEN signal without a position, a balance that covers the margin,
      and fewer than three open positions. Then the new row is right for the account as it
      was; otherwise no row changes. */
  lemma OpensExactlyWhen(db: Db, cfg: DemoConfig, id: nat, row: Signal)
    requires R.OpenPosition(db, cfg, id, row).Success?
    ensures
      var (next, found) := R.OpenPosition(db, cfg, id, row).value;
      var missing := row.status.Open? && PositionFor(db.positions, id).None?;
      var account := if db.account.Some? then db.account.value
                     else Account(cfg.initialBalance, cfg.initialBalance, cfg.initialBalance, cfg.initialBalance,
                                  cfg.margin, cfg.leverage, cfg.riskPercent, cfg.feeRate);
      var opens := missing && account.balance >= account.margin && OpenCount(db.positions) < 3;
      && next.signals == db.signals && next.trades == db.trades
      && next.account == (if missing then Some(account) else db.account)
      && (if opens
          then found.Some? && next.positions == db.positions + [found.value] && found.value.signalId == id
               && !found.value.closed && RowRight(row, found.value, cfg.slippageBps, account)
          else next.positions == db.positions
               && found == if row.status.Open? then PositionFor(db.positions, id) else None)
  {
    hide SizePosition, RowRight, PositionFor, OpenCount;
    if row.status.Open? && PositionFor(db.positions, id).None? {
      var a := EnsureAccount(db, cfg).value.1;
      var ready := EnsureAccount(db, cfg).value.0;
      if a.balance >= a.margin && OpenCount(db.positions) < 3 {
        CreatedRowIsRight(ready, id, row, a, cfg.slippageBps);
      }
    }
  }

  // --- Every reachable state -----------------------------------------------------------

  predicate SlipsAt(act: Action, slippageBps: real) {
    act.Advance? ==> act.cfg.slippageBps == slippageBps
  }

  /** The account row was `a` in some state of the run. */
  ghost predicate WasRead(acts: seq<Action>, a: Account) {
    exists k :: 0 <= k <= |acts| && Exec(acts[..k]).db.account == Some(a)
  }

  ghost predicate Traced(acts: seq<Action>, p: Position, slippageBps: real) {
    var db := Exec(acts).db;
    p.signalId < |db.signals| && exists a :: WasRead(acts, a) && RowRight(db.signals[p.signalId], p, slippageBps, a)
  }

  ghost predicate AllTraced(acts: seq<Action>, slippageBps: real) {
    && (forall i :: 0 <= i < |Exec(acts).db.positions| ==> Traced(acts, Exec(acts).db.positions[i], slippageBps))
    && (forall p :: p in Exec(acts).procs && Opening(Exec(acts).procs[p]) ==>
          WasRead(acts, Exec(acts).procs[p].account))
  }

  lemma RightForSameLevels(s: Signal, t: Signal, p: Position, q: Position, slippageBps: real, a: Account)
    requires RowRight(s, p, slippageBps, a) && s.symbol == t.symbol && s.levels == t.levels && SameRow(p, q)
    ensures RowRight(t, q, slippageBps, a)
  {
    hide SizedRight;
  }

  /** Where the rows of the next state come from. */
  ghost predicate Descends(s: Sys, t: Sys, slippageBps: real, i: nat)
    requires i < |t.db.positions|
  {
    || (i < |s.db.positions| && SameRow(s.db.positions[i], t.db.positions[i]))
    || (exists p :: p in s.procs && s.procs[p].OpenCommit? && t.db.positions[i].signalId == s.procs[p].id
                    && RowRight(s.procs[p].row, t.db.positions[i], slippageBps, s.procs[p].account))
  }

  lemma AdvanceDescends(s: Sys, p: nat, cfg: DemoConfig, i: nat)
    requires i < |Do(s, Advance(p, cfg)).db.positions|
    ensures Descends(s, Do(s, Advance(p, cfg)), cfg.slippageBps, i)
  {
    hide SizePosition, SettleNumbers, RowRight, PositionFor, OpenCount, EnsureAccount;
    var proc := ProcAt(s, p);
    match proc {
      case OpenCommit(id, row, account) =>
        if SizePosition(account, row.levels, cfg.slippageBps).Success? {
          CreatedRowIsRight(s.db, id, row, account, cfg.slippageBps);
        }
      case OpenAccount(_, _) => AccountLeavesPositions(s.db, cfg);
      case CloseAccount(_, _, _) => AccountLeavesPositions(s.db, cfg);
      case _ =>
    }
  }

  lemma AccountLeavesPositions(db: Db, cfg: DemoConfig)
    ensures EnsureAccount(db, cfg).Success? ==>
              EnsureAccount(db, cfg).value.0 == db.(account := Some(EnsureAccount(db, cfg).value.1))
  {
  }

  lemma ActionDescends(s: Sys, act: Action, slippageBps: real, i: nat)
    requires SlipsAt(act, slippageBps) && i < |Do(s, act).db.positions|
    ensures Descends(s, Do(s, act), slippageBps, i)
  {
    hide AdvanceStep, RowRight;
    if act.Advance? {
      AdvanceDescends(s, act.p, act.cfg, i);
    }
  }

  lemma ReadStaysRead(acts: seq<Action>, a: Account)
    requires acts != [] && WasRead(acts[..|acts| - 1], a)
    ensures WasRead(acts, a)
  {
    hide Exec;
    var front := acts[..|acts| - 1];
    var k :| 0 <= k <= |front| && Exec(front[..k]).db.account == Some(a);
    assert front[..k] == acts[..k];
  }

  lemma ReadNow(acts: seq<Action>, a: Account)
    requires Exec(acts).db.account == Some(a)
    ensures WasRead(acts, a)
  {
    assert acts[..|acts|] == acts;
  }

  lemma TracesLast(acts: seq<Action>, slippageBps: real, i: nat)
    requires acts != [] && SlipsAt(acts[|acts| - 1], slippageBps) && AllTraced(acts[..|acts| - 1], slippageBps)
    requires i < |Exec(acts).db.positions|
    ensures Traced(acts, Exec(acts).db.positions[i], slippageBps)
  {
    hide Do, RowRight, DbOk, WasRead, ProcOk;
    var n := |acts| - 1;
    var s, act := Exec(acts[..n]), acts[n];
    var t := Exec(acts);
    assert t == Do(s, act);
    RunsStaySafe(acts[..n]);
    DoKeeps(s, act);
    ActionDescends(s, act, slippageBps, i);
    var q := t.db.positions[i];
    if i < |s.db.positions| && SameRow(s.db.positions[i], q) {
      var p := s.db.positions[i];
      assert Traced(acts[..n], p, slippageBps);
      var a :| WasRead(acts[..n], a) && RowRight(s.db.signals[p.signalId], p, slippageBps, a);
      ReadStaysRead(acts, a);
      assert Evolves(s.db.signals[p.signalId], t.db.signals[p.signalId]);
      RightForSameLevels(s.db.signals[p.signalId], t.db.signals[p.signalId], p, q, slippageBps, a);
    } else {
      var p :| p in s.procs && s.procs[p].OpenCommit? && q.signalId == s.procs[p].id
               && RowRight(s.procs[p].row, q, slippageBps, s.procs[p].account);
      ReadStaysRead(acts, s.procs[p].account);
      CommitReadsItsSignal(s, p);
      assert Evolves(s.db.signals[q.signalId], t.db.signals[q.signalId]);
      RightForSameLevels(s.procs[p].row, t.db.signals[q.signalId], q, q, slippageBps, s.procs[p].account);
    }
  }

  lemma CommitReadsItsSignal(s: Sys, p: nat)
    requires SysOk(s) && p in s.procs && s.procs[p].OpenCommit?
    ensures
      var (id, row) := (s.procs[p].id, s.procs[p].row);
      id < |s.db.signals| && row.symbol == s.db.signals[id].symbol && row.levels == s.db.signals[id].levels
  {
    hide DbOk;
    assert ProcOk(s.db, s.procs[p]);
  }

  predicate Opening(proc: Proc) {
    proc.OpenCap? || proc.OpenCommit?
  }

  lemma StepReadsTheAccount(db: Db, proc: Proc, cfg: DemoConfig)
    requires Opening(AdvanceStep(db, proc, cfg).1)
    ensures
      var (next, moved) := AdvanceStep(db, proc, cfg);
      (Opening(proc) && proc.account == moved.account) || next.account == Some(moved.account)
  {
    hide CommitOpen, CommitClose, PositionFor, OpenCount, TradeFor, ActiveSignal;
  }

  /** A daemon that holds an account held it before, or has just read it. */
  lemma OpeningReadsTheAccount(s: Sys, act: Action, p: nat)
    requires p in Do(s, act).procs && Opening(Do(s, act).procs[p])
    ensures
      var t := Do(s, act);
      || (p in s.procs && Opening(s.procs[p]) && s.procs[p].account == t.procs[p].account)
      || t.db.account == Some(t.procs[p].account)
  {
    hide AdvanceStep, TransitionSignal, CreateSignal, PositionFor, ActiveSignal;
    if act.Advance? && act.p == p {
      StepReadsTheAccount(s.db, ProcAt(s, p), act.cfg);
    }
  }

  /** An account a daemon holds while it opens was in the table when it was read. */
  lemma AccountsComeFromReads(acts: seq<Action>, slippageBps: real, p: nat)
    requires acts != [] && AllTraced(acts[..|acts| - 1], slippageBps)
    requires p in Exec(acts).procs && Opening(Exec(acts).procs[p])
    ensures WasRead(acts, Exec(acts).procs[p].account)
  {
    hide WasRead, Traced, Do;
    var n := |acts| - 1;
    var s, t := Exec(acts[..n]), Exec(acts);
    assert t == Do(s, acts[n]);
    OpeningReadsTheAccount(s, acts[n], p);
    if t.db.account == Some(t.procs[p].account) {
      ReadNow(acts, t.procs[p].account);
    } else {
      ReadStaysRead(acts, t.procs[p].account);
    }
  }

  lemma {:induction false} RunsAreTraced(acts: seq<Action>, slippageBps: real)
    requires forall n :: 0 <= n < |acts| ==> SlipsAt(acts[n], slippageBps)
    ensures AllTraced(acts, slippageBps)
  {
    hide Do, Traced, WasRead, SlipsAt;
    if acts != [] {
      var front := acts[..|acts| - 1];
      assert forall n :: 0 <= n < |front| ==> front[n] == acts[n];
      RunsAreTraced(front, slippageBps);
      forall i | 0 <= i < |Exec(acts).db.positions|
        ensures Traced(acts, Exec(acts).db.positions[i], slippageBps)
      {
        TracesLast(acts, slippageBps, i);
      }
      forall p | p in Exec(acts).procs && Opening(Exec(acts).procs[p])
        ensures WasRead(acts, Exec(acts).procs[p].account)
      {
        AccountsComeFromReads(acts, slippageBps, p);
      }
    }
  }

  /** EVERY POSITION, in every state any interleaving and any crash reaches: its entry is its
      signal's entry moved adversely by the slippage, its size is quantity times entry, and
      its quantity is the greatest within both caps of an account row the run really had. */
  lemma EveryPositionIsFilledRight(acts: seq<Action>, slippageBps: real, i: nat)
    requires forall n :: 0 <= n < |acts| ==> SlipsAt(acts[n], slippageBps)
    requires i < |Exec(acts).db.positions|
    ensures
      var db := Exec(acts).db;
      var p := db.positions[i];
      && p.signalId < |db.signals| && p.entryPrice == AdverseEntry(db.signals[p.signalId].levels, slippageBps)
      && (slippageBps == 0.0 ==> p.entryPrice == db.signals[p.signalId].levels.entry)
      && p.positionSize == p.quantity * p.entryPrice
      && exists a :: WasRead(acts, a) && RowRight(db.signals[p.signalId], p, slippageBps, a)
  {
    hide Exec, WasRead;
    RunsAreTraced(acts, slippageBps);
    assert Traced(acts, Exec(acts).db.positions[i], slippageBps);
  }
}
