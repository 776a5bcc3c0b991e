/** The live system against its three other descriptions: the interleaved daemon steps,
    the executor run in one piece, and the backtest's per-minute monitor. */
module LiveAgreement {
  import opened Common
  import opened DemoAccount
  import opened Ledger
  import opened Monitor
  import opened LiveMonitor
  import opened Replay
  import D = Daemons
  import R = Recovery

  // --- Interleaved steps and whole calls --------------------------------------

  /** What the runtime does next with a monitor result. */
  function NextProc(r: MonitorResult): D.Proc {
    match r
    case EntryConfirmed(id, row) => D.OpenLookup(id, row)
    case ExitConfirmed(_, id, row) => D.CloseLookup(id, row)
    case _ => D.Idle
  }

  /** The atomic `Confirm` step of a daemon is the monitor's evaluation; a lost entry
      race resolves in one further read. */
  lemma ConfirmIsTheMonitor(db: Db, id: nat, row: Signal, c: Candle, cfg: DemoConfig)
    ensures
      var (after, r) := Evaluate(db, id, row, c);
      var (next, proc) := D.ConfirmStep(db, id, row, c.high, c.low);
      && next == after
      && NextProc(r) == if proc.LostRace? then D.AdvanceStep(next, proc, cfg).1 else proc
  {
  }

  function StepTwice(db: Db, proc: D.Proc, cfg: DemoConfig): (Db, D.Proc) {
    var (next, moved) := D.AdvanceStep(db, proc, cfg);
    D.AdvanceStep(next, moved, cfg)
  }

  function StepFour(db: Db, proc: D.Proc, cfg: DemoConfig): (Db, D.Proc) {
    var (next, moved) := StepTwice(db, proc, cfg);
    StepTwice(next, moved, cfg)
  }

  /** Left alone, a daemon's four steps are one `close_position` call. */
  lemma UninterruptedCloseIsOneCall(db: Db, id: nat, row: Signal, cfg: DemoConfig)
    requires R.ClosePosition(db, cfg, id, row).Success?
    ensures StepFour(db, D.CloseLookup(id, row), cfg) == (R.ClosePosition(db, cfg, id, row).value.0, D.Idle)
  {
    hide SettleNumbers, RecordTrade, EnsureAccount;
  }

  /** Left alone, a daemon's four steps are one `open_position` call. */
  lemma UninterruptedOpenIsOneCall(db: Db, id: nat, row: Signal, cfg: DemoConfig)
    requires R.OpenPosition(db, cfg, id, row).Success?
    ensures StepFour(db, D.OpenLookup(id, row), cfg) == (R.OpenPosition(db, cfg, id, row).value.0, D.Idle)
  {
    hide SizePosition, CreatePosition, EnsureAccount;
  }

  // --- Live against backtest --------------------------------------------------

  function StartPhase(a: Active): Phase {
    if a.fill.None? then Pending else Opened
  }

  /** `end` shows the lifecycle of `a` in phase `p`; a close is the configured level of
      its kind moved by slippage, recorded as the next trade. */
  predicate Shows(c: Config, st: RunState, a: Active, end: RunState, p: Phase) {
    match p
    case Closed(exit, price) =>
      && end.active.None? && |end.trades| == |st.trades| + 1 && end.trades[..|st.trades|] == st.trades
      && var t := end.trades[|st.trades|];
         && t.index == a.ndx && t.exit.Some? && t.exit.value.reason == exit && IsExit(exit)
         && price == (if exit.TpHit? then a.levels.takeProfit else a.levels.stopLoss)
         && t.exit.value.price == ClosePrice(c, a.levels, exit)
    case _ =>
      && end.active.Some? && end.trades == st.trades && end.active.value.ndx == a.ndx
      && end.active.value.levels == a.levels && end.active.value.decisionTime == a.decisionTime
      && StartPhase(end.active.value) == p
  }

  lemma StepShows(c: Config, st: RunState, a: Active, now: RunState, p: Phase, m: Candle)
    requires Shows(c, st, a, now, p) && m.timestamp >= a.decisionTime && MonitorStep(c, now, m).Success?
    ensures Shows(c, st, a, MonitorStep(c, now, m).value, Poll(a.levels, p, m))
  {
    hide OpenFill, GrossPnl, ExitFee, FundingCost, SlippageFactor, ClosePrice;
  }

  /** AGREEMENT: on the minutes from the decision time on, the backtest's shared cursor
      gives one signal the same status, exit kind and close level as the live monitor
      polling those minutes -- each of them any positive number of times. */
  lemma {:induction false} BacktestAgreesWithLive(c: Config, minutes: seq<Candle>, st: RunState, stop: nat)
    requires st.cursor <= stop <= |minutes| && st.active.Some? && Drain(c, minutes, st, stop).Success?
    requires forall n :: st.cursor <= n < stop ==> minutes[n].timestamp >= st.active.value.decisionTime
    ensures
      var a := st.active.value;
      Shows(c, st, a, Drain(c, minutes, st, stop).value, PollAll(a.levels, StartPhase(a), minutes[st.cursor..stop]))
    decreases stop
  {
    hide MonitorStep;
    var a := st.active.value;
    if stop == st.cursor {
      assert minutes[st.cursor..stop] == [];
    } else {
      BacktestAgreesWithLive(c, minutes, st, stop - 1);
      var polled := minutes[st.cursor..stop];
      assert polled[..|polled| - 1] == minutes[st.cursor..stop - 1];
      StepShows(c, st, a, Drain(c, minutes, st, stop - 1).value,
                PollAll(a.levels, StartPhase(a), minutes[st.cursor..stop - 1]), minutes[stop - 1]);
    }
  }

  lemma BacktestAgreesWithStutteringLive(c: Config, minutes: seq<Candle>, st: RunState, stop: nat, times: seq<nat>)
    requires st.cursor <= stop <= |minutes| && st.active.Some? && Drain(c, minutes, st, stop).Success?
    requires forall n :: st.cursor <= n < stop ==> minutes[n].timestamp >= st.active.value.decisionTime
    requires |times| == stop - st.cursor && forall i :: 0 <= i < |times| ==> times[i] >= 1
    ensures
      var a := st.active.value;
      Shows(c, st, a, Drain(c, minutes, st, stop).value,
            PollAll(a.levels, StartPhase(a), Stutter(minutes[st.cursor..stop], times)))
  {
    hide Shows, Drain, Stutter, PollAll;
    var a := st.active.value;
    BacktestAgreesWithLive(c, minutes, st, stop);
    PollingIsStutterInvariant(a.levels, StartPhase(a), minutes[st.cursor..stop], times);
  }

  /** No minute of this stretch would enter the signal. */
  ghost predicate NoEntry(l: Levels, minutes: seq<Candle>, from: nat, stop: nat)
    requires stop <= |minutes|
  {
    forall n :: from <= n < stop ==> !EvaluateEntry(l, minutes[n].high, minutes[n].low).EntryHit?
  }

  lemma {:induction false} StaysPendingExactlyWhen(l: Levels, minutes: seq<Candle>, from: nat, stop: nat)
    requires from <= stop <= |minutes|
    ensures PollAll(l, Pending, minutes[from..stop]).Pending? <==> NoEntry(l, minutes, from, stop)
    decreases stop
  {
    hide EvaluateEntry, EvaluateCandle;
    if from == stop {
      assert minutes[from..stop] == [];
    } else {
      StaysPendingExactlyWhen(l, minutes, from, stop - 1);
      assert minutes[from..stop][..stop - 1 - from] == minutes[from..stop - 1];
    }
  }

  lemma ShownPhaseIsUnique(c: Config, st: RunState, a: Active, end: RunState, p: Phase, q: Phase)
    requires Shows(c, st, a, end, p)
    ensures Shows(c, st, a, end, q) <==> p == q
  {
    hide ClosePrice;
  }

  // --- The numbers ----------------------------------------------------------------

  /** The backtest runs with the account's settings, and without funding. */
  predicate SameSettings(c: Config, account: Account, slippageBps: real) {
    && c.marginPerTrade == account.margin && c.leverage == account.leverage && c.riskPercent == account.riskPercent
    && c.feeRate == account.feeRate && c.slippageBps == slippageBps >= 0.0 && c.fundingRates == []
  }

  /** SAME FILL: from the same balance both sides size alike -- or both refuse. */
  lemma SameFill(c: Config, account: Account, l: Levels, slippageBps: real, time: int)
    requires SameSettings(c, account, slippageBps)
    ensures
      var (fill, sizing) := (OpenFill(c, l, account.balance, time), SizePosition(account, l, slippageBps));
      && (fill.Success? <==> sizing.Success?)
      && (fill.Success? ==>
            && fill.value.price == sizing.value.entryPrice && fill.value.quantity == sizing.value.quantity
            && fill.value.positionSize == sizing.value.positionSize
            && fill.value.entryFee == fill.value.positionSize * account.feeRate)
  {
    hide ResolveQuantity, SlippageFactor;
    assert OpenPrice(c, l) == FilledEntry(l, slippageBps);
    hide OpenPrice, FilledEntry;
  }

  /** SAME NET: a position filled alike and closed at the same exit settles to the same
      gross and net, and moves both balances by the same amount -- or both refuse. */
  lemma SameNet(
      c: Config, account: Account, l: Levels, f: Fill, reason: Touch, time: int, p: Position,
      s: Signal, slippageBps: real)
    requires SameSettings(c, account, slippageBps) && s.levels == l && IsExit(reason)
    requires p.entryPrice == f.price && p.quantity == f.quantity && p.positionSize == f.positionSize
    requires f.positionSize > 0.0 && account.feeRate >= 0.0 && f.entryFee == f.positionSize * account.feeRate
    requires s.closePrice == Some(if reason.TpHit? then l.takeProfit else l.stopLoss)
    ensures
      var (exit, numbers) := (CloseFill(c, l, f, reason, time), SettleNumbers(p, s, account.feeRate, slippageBps));
      && (exit.Success? <==> numbers.Success?)
      && (exit.Success? ==>
            && exit.value.price == numbers.value.exitPrice && exit.value.gross == numbers.value.grossPnl
            && exit.value.net == numbers.value.netPnl && f.entryFee + exit.value.fee == numbers.value.fee
            && exit.value.funding == 0.0)
  {
    hide SlippageFactor;
  }
}
