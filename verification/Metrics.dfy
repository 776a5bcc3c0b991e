/** Statistics of a run (backtest/metrics.py) and of a demo ledger
    (demo/statistics.py): single passes proved against quadratic definitions. */
module Metrics {
  import opened Common
  import opened DemoAccount
  import opened Replay
  import opened RunTheorems
  import opened RunInvariants

  // --- Definitions ----------------------------------------------------------

  /** A win is a net profit after fees and funding. */
  predicate Won(t: Trade) { Net(t) > 0.0 }

  function WinGross(t: Trade): real { if Won(t) then Gross(t) else 0.0 }
  function LossGross(t: Trade): real { if Won(t) then 0.0 else -Gross(t) }

  predicate IsLong(t: Trade) { t.levels.direction.Long? }
  function LongNet(t: Trade): real { if IsLong(t) then Net(t) else 0.0 }
  function ShortNet(t: Trade): real { if IsLong(t) then 0.0 else Net(t) }

  function RMultiple(t: Trade): real {
    if t.exit.Some? && t.exit.value.rMultiple.Some? then t.exit.value.rMultiple.value else 0.0
  }

  /** Time from entry to exit. */
  function Held(t: Trade): int {
    if t.exit.Some? then t.exit.value.time - t.fill.time else 0
  }

  function HeldTotal(ts: seq<Trade>): int {
    if ts == [] then 0 else HeldTotal(ts[..|ts| - 1]) + Held(ts[|ts| - 1])
  }

  ghost predicate IsLongestHeld(ts: seq<Trade>, longest: Option<int>) {
    match longest
    case None => ts == []
    case Some(most) =>
      && (exists i :: 0 <= i < |ts| && Held(ts[i]) == most)
      && (forall i :: 0 <= i < |ts| ==> Held(ts[i]) <= most)
  }

  function CountOf(ts: seq<Trade>, p: Trade -> bool): nat {
    if ts == [] then 0 else CountOf(ts[..|ts| - 1], p) + if p(ts[|ts| - 1]) then 1 else 0
  }

  predicate Lost(t: Trade) { !Won(t) }
  predicate LongWin(t: Trade) { IsLong(t) && Won(t) }
  predicate LongLoss(t: Trade) { IsLong(t) && !Won(t) }
  predicate ShortWin(t: Trade) { !IsLong(t) && Won(t) }
  predicate ShortLoss(t: Trade) { !IsLong(t) && !Won(t) }

  function Completed(ts: seq<Trade>): (closed: seq<Trade>)
    ensures forall i :: 0 <= i < |closed| ==> closed[i].exit.Some?
  {
    if ts == [] then [] else
      var last := ts[|ts| - 1];
      Completed(ts[..|ts| - 1]) + if last.exit.Some? then [last] else []
  }

  /** Trades `i` to `j` exclusive are all wins, or all losses. */
  ghost predicate IsBlock(ts: seq<Trade>, win: bool, i: nat, j: nat) {
    i <= j <= |ts| && forall k :: i <= k < j ==> Won(ts[k]) == win
  }

  /** `n` is the length of the longest contiguous block among the first `k` trades. */
  ghost predicate LongestBlock(ts: seq<Trade>, win: bool, k: nat, n: nat) {
    && (exists i: nat, j: nat :: j <= k && IsBlock(ts, win, i, j) && j - i == n)
    && (forall i: nat, j: nat :: j <= k && IsBlock(ts, win, i, j) ==> j - i <= n)
  }

  /** `n` trades ending at `k` form a block that cannot be extended to the left. */
  ghost predicate RunningBlock(ts: seq<Trade>, win: bool, k: nat, n: nat) {
    n <= k <= |ts| && IsBlock(ts, win, k - n, k) && (n < k ==> Won(ts[k - n - 1]) != win)
  }

  /** `drop` is the largest fall from an earlier to a later point among the first `k`. */
  ghost predicate IsMaxDrawdown(path: seq<real>, k: nat, drop: real) {
    && k <= |path|
    && (exists i, j :: 0 <= i <= j < k && path[i] - path[j] == drop)
    && (forall i, j :: 0 <= i <= j < k ==> path[i] - path[j] <= drop)
  }

  ghost predicate IsPeak(path: seq<real>, k: nat, peak: real) {
    && k <= |path|
    && (exists i :: 0 <= i < k && path[i] == peak)
    && (forall i :: 0 <= i < k ==> path[i] <= peak)
  }

  /** `top` is the running maximum at a point where the fall was `drop`. */
  ghost predicate FallsFrom(path: seq<real>, k: nat, top: real, drop: real) {
    exists j: nat :: j < k && IsPeak(path, j + 1, top) && top - path[j] == drop
  }

  // --- The trade loop -------------------------------------------------------

  datatype Totals = Totals(
    wins: nat, losses: nat, longWins: nat, longLosses: nat, shortWins: nat, shortLosses: nat,
    longTrades: nat, shortTrades: nat, longNet: real, shortNet: real,
    grossProfit: real, grossLoss: real, gross: real, net: real, fees: real, funding: real,
    rTotal: real, held: int, longestHeld: Option<int>)

  /** What the accumulators mean for the trades seen. */
  ghost predicate TotalsOf(ts: seq<Trade>, t: Totals) {
    && CountsOf(ts, t) && SidesOf(ts, t) && SumsOf(ts, t)
    && t.held == HeldTotal(ts) && IsLongestHeld(ts, t.longestHeld)
  }

  ghost predicate CountsOf(ts: seq<Trade>, t: Totals) {
    && t.wins == CountOf(ts, Won) && t.losses == CountOf(ts, Lost)
    && t.longWins == CountOf(ts, LongWin) && t.longLosses == CountOf(ts, LongLoss)
    && t.shortWins == CountOf(ts, ShortWin) && t.shortLosses == CountOf(ts, ShortLoss)
    && t.longTrades == CountOf(ts, IsLong) && t.longTrades + t.shortTrades == |ts|
  }

  ghost predicate SidesOf(ts: seq<Trade>, t: Totals) {
    && t.longNet == SumOf(ts, LongNet) && t.shortNet == SumOf(ts, ShortNet)
    && t.grossProfit == SumOf(ts, WinGross) && t.grossLoss == SumOf(ts, LossGross)
  }

  ghost predicate SumsOf(ts: seq<Trade>, t: Totals) {
    && t.gross == SumOf(ts, Gross) && t.net == SumOf(ts, Net)
    && t.fees == SumOf(ts, Fees) && t.funding == SumOf(ts, FundingPaid)
    && t.rTotal == SumOf(ts, RMultiple)
  }

  /** The accumulators balance against each other. */
  predicate TotalsBalance(t: Totals, completed: nat) {
    && t.wins + t.losses == completed
    && t.wins == t.longWins + t.shortWins && t.losses == t.longLosses + t.shortLosses
    && t.longTrades == t.longWins + t.longLosses && t.shortTrades == t.shortWins + t.shortLosses
    && t.net == t.longNet + t.shortNet
    && t.grossProfit - t.grossLoss == t.gross
  }

  datatype Statistics = Statistics(
    totals: Totals, consecutiveWins: nat, consecutiveLosses: nat,
    winRate: Option<real>, longWinRate: Option<real>, shortWinRate: Option<real>,
    profitFactor: Option<real>, expectancy: Option<real>,
    averageWin: Option<real>, averageLoss: Option<real>, averageR: Option<real>, averageHeld: Option<int>,
    peakBalance: real, maxDrawdown: real, maxDrawdownPct: Option<real>,
    finalBalance: real, totalReturnPct: Option<real>)

  datatype MetricError = EmptyEquityCurve

  function Ratio(numerator: real, denominator: real): Option<real> {
    if denominator == 0.0 then None else Some(numerator / denominator)
  }

  function Percent(numerator: real, denominator: real): Option<real> {
    if denominator == 0.0 then None else Some(numerator / denominator * 100.0)
  }

  /** `x` is the quotient, missing exactly when there is nothing to divide by. */
  predicate IsRatio(x: Option<real>, numerator: real, denominator: real) {
    (x.None? <==> denominator == 0.0) && (x.Some? ==> x.value * denominator == numerator)
  }

  /** The same in hundredths: all of the denominator is 100. */
  predicate IsPercent(x: Option<real>, numerator: real, denominator: real) {
    (x.None? <==> denominator == 0.0) && (x.Some? ==> x.value * denominator == 100.0 * numerator)
  }

  lemma QuotientsRead(numerator: real, denominator: real)
    ensures IsRatio(Ratio(numerator, denominator), numerator, denominator)
    ensures IsPercent(Percent(numerator, denominator), numerator, denominator)
  {
    if denominator != 0.0 {
      var q := numerator / denominator;
      assert q * denominator == numerator;
      assert q * 100.0 * denominator == 100.0 * (q * denominator);
    }
  }

  function AddTrade(t: Totals, trade: Trade): Totals {
    var win, long, net := Won(trade), IsLong(trade), Net(trade);
    Totals(
      t.wins + (if win then 1 else 0), t.losses + (if win then 0 else 1),
      t.longWins + (if win && long then 1 else 0), t.longLosses + (if !win && long then 1 else 0),
      t.shortWins + (if win && !long then 1 else 0), t.shortLosses + (if !win && !long then 1 else 0),
      t.longTrades + (if long then 1 else 0), t.shortTrades + (if long then 0 else 1),
      t.longNet + (if long then net else 0.0), t.shortNet + (if long then 0.0 else net),
      t.grossProfit + (if win then Gross(trade) else 0.0), t.grossLoss + (if win then 0.0 else -Gross(trade)),
      t.gross + Gross(trade), t.net + net, t.fees + Fees(trade), t.funding + FundingPaid(trade),
      t.rTotal + RMultiple(trade), t.held + Held(trade),
      Some(if t.longestHeld.Some? && t.longestHeld.value >= Held(trade) then t.longestHeld.value else Held(trade)))
  }

  lemma LongestHeldStep(ts: seq<Trade>, longest: Option<int>, trade: Trade)
    requires IsLongestHeld(ts, longest)
    ensures
      var most := if longest.Some? && longest.value >= Held(trade) then longest.value else Held(trade);
      IsLongestHeld(ts + [trade], Some(most))
  {
    hide Held;
    var all := ts + [trade];
    assert all[|ts|] == trade;
    if longest.Some? {
      var i :| 0 <= i < |ts| && Held(ts[i]) == longest.value;
      assert all[i] == ts[i];
    }
  }

  lemma AddTradeKeepsTotals(ts: seq<Trade>, t: Totals, trade: Trade)
    requires TotalsOf(ts, t) && TotalsBalance(t, |ts|)
    ensures TotalsOf(ts + [trade], AddTrade(t, trade)) && TotalsBalance(AddTrade(t, trade), |ts| + 1)
  {
    hide Net, Gross, Fees, FundingPaid, RMultiple, Held, IsLongestHeld;
    assert (ts + [trade])[..|ts|] == ts;
    LongestHeldStep(ts, t.longestHeld, trade);
  }

  /** WHAT A TRADE ADDS to every accumulator, in its own numbers: with none before the first
      trade this fixes them all. A win is a positive net; its gross is profit, a loser's
      gross is counted as loss with the sign turned. */
  lemma OneMoreTradeAdds(ts: seq<Trade>, x: Trade, a: Totals, b: Totals)
    requires x.exit.Some? && TotalsOf(ts, a) && TotalsOf(ts + [x], b)
    ensures
      var (e, long) := (x.exit.value, x.levels.direction.Long?);
      var win := e.net > 0.0;
      && b.wins == a.wins + (if win then 1 else 0) && b.losses == a.losses + (if win then 0 else 1)
      && b.longWins == a.longWins + (if win && long then 1 else 0)
      && b.longLosses == a.longLosses + (if !win && long then 1 else 0)
      && b.shortWins == a.shortWins + (if win && !long then 1 else 0)
      && b.shortLosses == a.shortLosses + (if !win && !long then 1 else 0)
      && b.longTrades == a.longTrades + (if long then 1 else 0)
      && b.shortTrades == a.shortTrades + (if long then 0 else 1)
    ensures
      var (e, long) := (x.exit.value, x.levels.direction.Long?);
      var win := e.net > 0.0;
      && b.longNet == a.longNet + (if long then e.net else 0.0)
      && b.shortNet == a.shortNet + (if long then 0.0 else e.net)
      && b.grossProfit == a.grossProfit + (if win then e.gross else 0.0)
      && b.grossLoss == a.grossLoss + (if win then 0.0 else -e.gross)
      && b.gross == a.gross + e.gross && b.net == a.net + e.net
      && b.fees == a.fees + x.fill.entryFee + e.fee && b.funding == a.funding + e.funding
      && b.rTotal == a.rTotal + (if e.rMultiple.Some? then e.rMultiple.value else 0.0)
      && b.held == a.held + (e.time - x.fill.time)
  {
    hide IsLongestHeld;
    var all := ts + [x];
    assert all[..|all| - 1] == ts && all[|all| - 1] == x;
  }

  /** Blocks and completion in the trades' own terms: a completed trade has an exit. */
  lemma CompletedTradesHaveExits(ts: seq<Trade>, x: Trade)
    ensures Completed(ts + [x]) == Completed(ts) + if x.exit.Some? then [x] else []
    ensures x.exit.Some? ==> (Won(x) <==> x.exit.value.net > 0.0)
  {
    assert (ts + [x])[..|ts|] == ts;
  }

  lemma RunningBlockIsMaximal(ts: seq<Trade>, win: bool, k: nat, n: nat, start: nat)
    requires RunningBlock(ts, win, k, n) && IsBlock(ts, win, start, k)
    ensures k - start <= n
  {
    hide Won;
  }

  lemma StreakStep(ts: seq<Trade>, win: bool, k: nat, streak: nat, best: nat)
    requires k < |ts| && RunningBlock(ts, win, k, streak) && LongestBlock(ts, win, k, best)
    ensures
      var next := if Won(ts[k]) == win then streak + 1 else 0;
      RunningBlock(ts, win, k + 1, next) && LongestBlock(ts, win, k + 1, if next > best then next else best)
  {
    hide Won;
    var next := if Won(ts[k]) == win then streak + 1 else 0;
    var i: nat, j: nat :| j <= k && IsBlock(ts, win, i, j) && j - i == best;
    assert IsBlock(ts, win, k + 1 - next, k + 1);
    assert RunningBlock(ts, win, k + 1, next);
    forall a: nat, b: nat | b <= k + 1 && IsBlock(ts, win, a, b) ensures b - a <= next || b - a <= best {
      if b == k + 1 {
        RunningBlockIsMaximal(ts, win, b, next, a);
      }
    }
  }

  lemma NoTradesNoTotals(ts: seq<Trade>)
    requires ts == []
    ensures
      var zero := Totals(0, 0, 0, 0, 0, 0, 0, 0, 0.0, 0.0, 0.0, 0.0, 0.0, 0.0, 0.0, 0.0, 0.0, 0, None);
      TotalsOf(ts, zero) && TotalsBalance(zero, 0)
  {
    hide Won, Lost, IsLong, LongWin, LongLoss, ShortWin, ShortLoss, Held, CountsOf, SidesOf, SumsOf;
    hide Net, Gross, Fees, FundingPaid, RMultiple, LongNet, ShortNet, WinGross, LossGross;
    var zero := Totals(0, 0, 0, 0, 0, 0, 0, 0, 0.0, 0.0, 0.0, 0.0, 0.0, 0.0, 0.0, 0.0, 0.0, 0, None);
    NothingCounted(ts, zero);
    NothingSummed(ts, zero);
  }

  lemma NothingCounted(ts: seq<Trade>, t: Totals)
    requires ts == [] && t.wins == t.losses == t.longWins == t.longLosses == t.shortWins == t.shortLosses == 0
    requires t.longTrades == t.shortTrades == 0
    ensures CountsOf(ts, t)
  {
    hide Won, Lost, IsLong, LongWin, LongLoss, ShortWin, ShortLoss;
  }

  lemma NothingSummed(ts: seq<Trade>, t: Totals)
    requires ts == [] && t.longNet == t.shortNet == t.grossProfit == t.grossLoss == 0.0
    requires t.gross == t.net == t.fees == t.funding == t.rTotal == 0.0
    ensures SidesOf(ts, t) && SumsOf(ts, t)
  {
    hide Net, Gross, Fees, FundingPaid, RMultiple, LongNet, ShortNet, WinGross, LossGross;
  }

  lemma NoTradesNoStreak(ts: seq<Trade>, win: bool)
    ensures RunningBlock(ts, win, 0, 0) && LongestBlock(ts, win, 0, 0)
  {
    hide Won;
    assert IsBlock(ts, win, 0, 0);
  }

  /** The single pass over the completed trades. */
  method SumTrades(trades: seq<Trade>) returns (t: Totals, bestWins: nat, bestLosses: nat)
    ensures TotalsOf(trades, t) && TotalsBalance(t, |trades|)
    ensures LongestBlock(trades, true, |trades|, bestWins)
    ensures LongestBlock(trades, false, |trades|, bestLosses)
  {
    hide Won, AddTrade, TotalsOf, TotalsBalance, LongestBlock, RunningBlock;
    t := Totals(0, 0, 0, 0, 0, 0, 0, 0, 0.0, 0.0, 0.0, 0.0, 0.0, 0.0, 0.0, 0.0, 0.0, 0, None);
    var wins, losses := 0, 0;
    bestWins, bestLosses := 0, 0;
    NoTradesNoTotals(trades[..0]);
    NoTradesNoStreak(trades, true);
    NoTradesNoStreak(trades, false);
    for k := 0 to |trades|
      invariant TotalsOf(trades[..k], t) && TotalsBalance(t, k)
      invariant RunningBlock(trades, true, k, wins) && LongestBlock(trades, true, k, bestWins)
      invariant RunningBlock(trades, false, k, losses) && LongestBlock(trades, false, k, bestLosses)
    {
      AddTradeKeepsTotals(trades[..k], t, trades[k]);
      StreakStep(trades, true, k, wins, bestWins);
      StreakStep(trades, false, k, losses, bestLosses);
      assert trades[..k + 1] == trades[..k] + [trades[k]];
      t := AddTrade(t, trades[k]);
      if Won(trades[k]) {
        wins, losses := wins + 1, 0;
      } else {
        wins, losses := 0, losses + 1;
      }
      bestWins := if wins > bestWins then wins else bestWins;
      bestLosses := if losses > bestLosses then losses else bestLosses;
    }
    assert trades[..|trades|] == trades;
  }

  // --- The equity loop ------------------------------------------------------

  lemma DrawdownStep(path: seq<real>, k: nat, peak: real, drop: real)
    requires k < |path| && IsPeak(path, k, peak) && IsMaxDrawdown(path, k, drop)
    ensures
      var top := if path[k] > peak then path[k] else peak;
      IsPeak(path, k + 1, top) && IsMaxDrawdown(path, k + 1, if top - path[k] > drop then top - path[k] else drop)
  {
    PeakStep(path, k, peak);
    WorstFallStep(path, k, if path[k] > peak then path[k] else peak, drop);
  }

  lemma WorstFallStep(path: seq<real>, k: nat, top: real, drop: real)
    requires k < |path| && IsPeak(path, k + 1, top) && IsMaxDrawdown(path, k, drop)
    ensures IsMaxDrawdown(path, k + 1, if top - path[k] > drop then top - path[k] else drop)
  {
    var worst := if top - path[k] > drop then top - path[k] else drop;
    var at :| 0 <= at < k + 1 && path[at] == top;
    var i, j :| 0 <= i <= j < k && path[i] - path[j] == drop;
    var (high, low) := if top - path[k] > drop then (at, k) else (i, j);
    assert path[high] - path[low] == worst;
  }

  lemma PeakStep(path: seq<real>, k: nat, peak: real)
    requires k < |path| && IsPeak(path, k, peak)
    ensures IsPeak(path, k + 1, if path[k] > peak then path[k] else peak)
  {
    var p :| 0 <= p < k && path[p] == peak;
    var at := if path[k] > peak then k else p;
    assert path[at] == if path[k] > peak then path[k] else peak;
  }

  lemma FirstPoint(path: seq<real>)
    requires path != []
    ensures IsPeak(path, 1, path[0]) && IsMaxDrawdown(path, 1, 0.0) && FallsFrom(path, 1, path[0], 0.0)
  {
    assert path[0] - path[0] == 0.0;
    assert IsPeak(path, 0 + 1, path[0]);
  }

  lemma FallStep(path: seq<real>, k: nat, top: real, drop: real)
    requires FallsFrom(path, k, top, drop)
    ensures FallsFrom(path, k + 1, top, drop)
  {
  }

  lemma FallAt(path: seq<real>, k: nat, top: real)
    requires k < |path| && IsPeak(path, k + 1, top)
    ensures FallsFrom(path, k + 1, top, top - path[k])
  {
  }

  method PeakAndDrawdown(equity: seq<real>) returns (peak: real, drop: real, dropPeak: real)
    requires equity != []
    ensures IsPeak(equity, |equity|, peak) && IsMaxDrawdown(equity, |equity|, drop)
    ensures FallsFrom(equity, |equity|, dropPeak, drop)
  {
    hide IsPeak, IsMaxDrawdown, FallsFrom;
    peak, drop, dropPeak := equity[0], 0.0, equity[0];
    FirstPoint(equity);
    for k := 1 to |equity|
      invariant IsPeak(equity, k, peak) && IsMaxDrawdown(equity, k, drop)
      invariant FallsFrom(equity, k, dropPeak, drop)
    {
      DrawdownStep(equity, k, peak, drop);
      FallStep(equity, k, dropPeak, drop);
      if equity[k] > peak {
        peak := equity[k];
      }
      if peak - equity[k] > drop {
        drop, dropPeak := peak - equity[k], peak;
        FallAt(equity, k, peak);
      }
    }
  }

  /** `BacktestStatistics.compute` over a run's trades and equity curve. */
  method Compute(initialBalance: real, trades: seq<Trade>, equity: seq<real>, finalBalance: real)
    returns (r: Result<Statistics, MetricError>)
    ensures r.Failure? <==> equity == []
    ensures r.Success? ==>
              var s, closed := r.value, Completed(trades);
              && TotalsOf(closed, s.totals) && TotalsBalance(s.totals, |closed|)
              && LongestBlock(closed, true, |closed|, s.consecutiveWins)
              && LongestBlock(closed, false, |closed|, s.consecutiveLosses)
              && IsPeak(equity, |equity|, s.peakBalance) && IsMaxDrawdown(equity, |equity|, s.maxDrawdown)
              && (exists top :: FallsFrom(equity, |equity|, top, s.maxDrawdown)
                                && IsPercent(s.maxDrawdownPct, s.maxDrawdown, top))
              && s.finalBalance == finalBalance
              && IsPercent(s.totalReturnPct, finalBalance - initialBalance, initialBalance)
              && IsPercent(s.winRate, s.totals.wins as real, |closed| as real)
              && IsPercent(s.longWinRate, s.totals.longWins as real, s.totals.longTrades as real)
              && IsPercent(s.shortWinRate, s.totals.shortWins as real, s.totals.shortTrades as real)
              && IsRatio(s.averageR, s.totals.rTotal, |closed| as real)
              && s.averageHeld == (if closed == [] then None else Some(s.totals.held / |closed|))
              && IsRatio(s.expectancy, s.totals.net, |closed| as real)
              && (s.profitFactor.Some? <==> s.totals.grossLoss > 0.0)
              && (s.profitFactor.Some? ==> s.profitFactor.value * s.totals.grossLoss == s.totals.grossProfit)
              && IsRatio(s.averageWin, s.totals.grossProfit, s.totals.wins as real)
              && IsRatio(s.averageLoss, s.totals.grossLoss, s.totals.losses as real)
  {
    hide TotalsOf, TotalsBalance, LongestBlock, IsPeak, IsMaxDrawdown, FallsFrom, IsRatio, IsPercent, Percent;
    var closed := Completed(trades);
    var t, bestWins, bestLosses := SumTrades(closed);
    if equity == [] {
      return Failure(EmptyEquityCurve);
    }
    var peak, drop, dropPeak := PeakAndDrawdown(equity);
    var completed := |closed| as real;
    assert FallsFrom(equity, |equity|, dropPeak, drop);
    QuotientsRead(t.wins as real, completed);
    QuotientsRead(t.longWins as real, t.longTrades as real);
    QuotientsRead(t.shortWins as real, t.shortTrades as real);
    QuotientsRead(t.grossProfit, t.grossLoss);
    QuotientsRead(t.net, completed);
    QuotientsRead(t.grossProfit, t.wins as real);
    QuotientsRead(t.grossLoss, t.losses as real);
    QuotientsRead(t.rTotal, completed);
    QuotientsRead(drop, dropPeak);
    QuotientsRead(finalBalance - initialBalance, initialBalance);
    r := Success(Statistics(
      t, bestWins, bestLosses,
      Percent(t.wins as real, completed),
      Percent(t.longWins as real, t.longTrades as real), Percent(t.shortWins as real, t.shortTrades as real),
      if t.grossLoss > 0.0 then Some(t.grossProfit / t.grossLoss) else None,
      Ratio(t.net, completed),
      Ratio(t.grossProfit, t.wins as real), Ratio(t.grossLoss, t.losses as real),
      Ratio(t.rTotal, completed), if closed == [] then None else Some(t.held / |closed|),
      peak, drop, Percent(drop, dropPeak),
      finalBalance, Percent(finalBalance - initialBalance, initialBalance)));
  }

  // --- Statistics of a whole run --------------------------------------------

  /** A trade still open at the end contributes nothing to any sum. */
  lemma {:induction false} OpenTradesAddNothing(ts: seq<Trade>, f: Trade -> real)
    requires forall t: Trade :: t.exit.None? ==> f(t) == 0.0
    ensures SumOf(Completed(ts), f) == SumOf(ts, f)
  {
    if ts != [] {
      var n := |ts| - 1;
      OpenTradesAddNothing(ts[..n], f);
      var closed := Completed(ts[..n]);
      if ts[n].exit.Some? {
        assert (closed + [ts[n]])[..|closed|] == closed;
      } else {
        assert Completed(ts) == closed;
      }
    }
  }

  /** MONEY IN EQUALS MONEY REPORTED: any statistics over a run's trades report the
      balance change the run made, split into gross, fees and funding. */
  lemma StatisticsMatchTheRun(c: Config, market: Market, hours: seq<Candle>, minutes: seq<Candle>, t: Totals)
    requires Runnable(c, hours, minutes) && Run(c, market, hours, minutes).Success?
    requires TotalsOf(Completed(Run(c, market, hours, minutes).value.trades), t)
    ensures t.net == Run(c, market, hours, minutes).value.state.balance - c.initialBalance
    ensures t.net == t.gross - t.fees - t.funding
  {
    hide Run;
    RunConservesMoney(c, market, hours, minutes);
    var ts := Run(c, market, hours, minutes).value.trades;
    OpenTradesAddNothing(ts, Net);
    OpenTradesAddNothing(ts, Gross);
    OpenTradesAddNothing(ts, Fees);
    OpenTradesAddNothing(ts, FundingPaid);
  }

  // --- Demo ledger statistics -----------------------------------------------

  /** The running-balance drawdown raises exactly when some balance is negative. */
  method MaxDrawdownFromPath(path: seq<real>) returns (r: Calc<real>)
    ensures r.Failure? <==> exists i :: 0 <= i < |path| && path[i] < 0.0
    ensures r.Success? ==> if path == [] then r.value == 0.0 else IsMaxDrawdown(path, |path|, r.value)
  {
    hide IsPeak, IsMaxDrawdown;
    if path == [] {
      return Success(0.0);
    }
    var peak, worst := path[0], 0.0;
    FirstPoint(path);
    for k := 0 to |path|
      invariant k == 0 ==> peak == path[0] && worst == 0.0
      invariant k > 0 ==> peak >= 0.0 && IsPeak(path, k, peak) && IsMaxDrawdown(path, k, worst)
      invariant worst >= 0.0
      invariant forall i :: 0 <= i < k ==> path[i] >= 0.0
    {
      if k > 0 {
        DrawdownStep(path, k, peak, worst);
      }
      if path[k] > peak {
        peak := path[k];
      }
      var drawdown := CurrentDrawdown(peak, path[k]);
      if drawdown.Failure? {
        return Failure(drawdown.error);
      }
      if drawdown.value > worst {
        worst := drawdown.value;
      }
    }
    r := Success(worst);
  }
}
