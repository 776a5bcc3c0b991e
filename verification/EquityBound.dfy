/** How much one closed trade can cost: the two sizing caps carried through the
    fill, the exit and the balance update of a whole run. */
module EquityBound {
  import opened Common
  import opened DemoAccount
  import opened Monitor
  import opened Replay
  import opened RunInvariants
  import opened RunTheorems

  // --- The exit notional against the entry notional ----------------------------

  /** Slippage of one fill, as a fraction. */
  function Slip(c: Config): real {
    c.slippageBps / 10000.0
  }

  /** What slippage on both fills can take out of a round trip, relative to its notional. */
  function Spread(s: real): real
    requires s < 1.0
  {
    2.0 * s / (1.0 - s)
  }

  lemma SpreadCovers(s: real)
    requires 0.0 <= s < 1.0
    ensures Spread(s) >= 2.0 * s && Spread(s) >= s
  {
    DivBounds(2.0 * s, 2.0 * s, 1.0 - s);
    assert 2.0 * s * (1.0 - s) <= 2.0 * s by { MulMono(0.0, s, s); }
  }

  /** How far slippage and the risk cap let the exit notional fall behind the entry's. */
  function Adverse(s: real, notional: real, risk: real): real
    requires s < 1.0
  {
    risk + Spread(s) * (notional + risk)
  }

  lemma AdverseGrows(s: real, n: real, cap: real, risk: real)
    requires 0.0 <= s < 1.0 && 0.0 <= n <= cap && risk >= 0.0
    ensures 0.0 <= Adverse(s, n, risk) <= Adverse(s, cap, risk)
  {
    SpreadCovers(s);
    MulMono(n + risk, cap + risk, Spread(s));
    MulMono(0.0, Spread(s), n + risk);
  }

  lemma AdverseCovers(s: real, n: real, risk: real)
    requires 0.0 <= s < 1.0 && n >= 0.0 && risk >= 0.0
    ensures Adverse(s, n, risk) >= Spread(s) * n && Adverse(s, n, risk) >= risk + s * n
    ensures Adverse(s, n, risk) >= risk + s * (n + risk)
  {
    SpreadCovers(s);
    hide Spread;
    var w := Spread(s);
    assert w * (n + risk) == w * n + w * risk;
    assert w * risk >= 0.0 by { MulMono(0.0, w, risk); }
    assert s * n <= w * n by { MulMono(s, w, n); }
    assert s * (n + risk) <= w * (n + risk) by { MulMono(s, w, n + risk); }
  }

  /** A LONG's target, slipped by `k`: with `v * k == up`, not far below the slipped entry. */
  lemma LongTargetFloor(k: real, up: real, v: real, n: real, level: real, x: real)
    requires k > 0.0 && v >= 1.0 && v * k == up && n > 0.0 && x == level * k && level * up >= n
    ensures x >= n * (2.0 - v)
  {
    assert x * v >= n by {
      assert level * k * v == level * (v * k);
    }
    var u := 2.0 - v;
    assert u * v <= 1.0 by {
      var d := v - 1.0;
      assert d * d >= 0.0;
      assert u * v == 1.0 - d * d;
    }
    assert n * u * v <= n by {
      MulMono(u * v, 1.0, n);
      assert n * u * v == u * v * n;
    }
    FactorBounds(n * u, x, x * v, v);
  }

  /** A SHORT's target, slipped by `up`: not far above the slipped entry. */
  lemma ShortTargetCeiling(k: real, up: real, v: real, n: real, level: real, x: real)
    requires k > 0.0 && up > 0.0 && v * k == up && x == level * up && level * k <= n
    ensures x <= n * v
  {
    assert x * k <= n * up by {
      MulMono(level * k, n, up);
      assert level * k * up == level * up * k;
    }
    assert n * v * k == n * up by {
      assert n * v * k == n * (v * k);
    }
    FactorBounds(x, n * v, n * v * k, k);
  }

  /** One and the spread together undo a slip and apply the other. */
  lemma SpreadBridges(s: real, k: real, up: real, v: real)
    requires 0.0 <= s < 1.0 && k == 1.0 - s && up == 1.0 + s && v == 1.0 + Spread(s)
    ensures v >= 1.0 && v * k == up
  {
    SpreadCovers(s);
    var w := 2.0 * s / k;
    assert w == Spread(s);
    assert w * k == 2.0 * s;
    hide Spread;
    assert v * k == k + w * k;
  }

  /** A LONG's stop, slipped by the factor `k == 1 - s`. */
  lemma LongStopFloor(s: real, k: real, n: real, risk: real, level: real, x: real)
    requires s >= 0.0 && k == 1.0 - s && k > 0.0 && risk >= 0.0 && x == level * k && level >= n - risk
    ensures x >= n - risk - s * n
  {
    var floor, sn, sr := n - risk, s * n, s * risk;
    assert sr >= 0.0 by { MulMono(0.0, s, risk); }
    assert x >= floor * k by { MulMono(floor, level, k); }
    assert floor * s == sn - sr;
    assert floor * k == floor - floor * s;
  }

  /** A SHORT's stop, slipped by the factor `up == 1 + s`. */
  lemma ShortStopCeiling(s: real, up: real, n: real, risk: real, level: real, x: real)
    requires up == 1.0 + s && up > 0.0 && x == level * up && level <= n + risk
    ensures x <= n + risk + s * (n + risk)
  {
    var top := n + risk;
    assert x <= top * up by { MulMono(level, top, up); }
    assert top * up == top + s * top;
  }

  /** The exit notional after a target, from notionals alone. */
  lemma ExitAfterTarget(
      long: bool, s: real, k: real, up: real, n: real, level: real, x: real, risk: real)
    requires 0.0 <= s < 1.0 && k == 1.0 - s && up == 1.0 + s && n > 0.0 && risk >= 0.0
    requires if long then x == level * k && level * up >= n else x == level * up && level * k <= n
    ensures if long then x >= n - Adverse(s, n, risk) else x <= n + Adverse(s, n, risk)
  {
    AdverseCovers(s, n, risk);
    hide Adverse;
    var w := Spread(s);
    var v := 1.0 + w;
    SpreadBridges(s, k, up, v);
    hide Spread;
    if long {
      LongTargetFloor(k, up, v, n, level, x);
    } else {
      ShortTargetCeiling(k, up, v, n, level, x);
    }
  }

  /** The exit notional after a stop. */
  lemma ExitAfterStop(long: bool, s: real, k: real, up: real, n: real, level: real, x: real, risk: real)
    requires 0.0 <= s < 1.0 && k == 1.0 - s && up == 1.0 + s && n > 0.0 && risk >= 0.0
    requires n - risk <= level <= n + risk && x == level * (if long then k else up)
    ensures if long then x >= n - Adverse(s, n, risk) else x <= n + Adverse(s, n, risk)
  {
    AdverseCovers(s, n, risk);
    hide Adverse;
    if long {
      LongStopFloor(s, k, n, risk, level, x);
    } else {
      ShortStopCeiling(s, up, n, risk, level, x);
    }
  }

  function Notional(q: real, price: real): real {
    q * price
  }

  /** What the two fills of a trade have to do with each other, `k` and `up` being the
      adverse factors of a sale and of a purchase. */
  ghost predicate SlippedFills(l: Levels, k: real, up: real, entry: real, exit: real, win: bool) {
    var level := if win then l.takeProfit else l.stopLoss;
    && Ordered(l) && PositiveLevels(l) && entry > 0.0
    && entry == l.entry * (if l.direction.Long? then up else k)
    && exit == level * (if l.direction.Long? then k else up)
  }

  lemma NotionalScales(q: real, level: real, factor: real, price: real)
    requires price == level * factor
    ensures Notional(q, price) == Notional(q, level) * factor
  {
    assert q * (level * factor) == q * level * factor;
  }

  lemma NotionalGrows(q: real, low: real, high: real, factor: real)
    requires q > 0.0 && low <= high && factor > 0.0
    ensures Notional(q, low) * factor <= Notional(q, high) * factor
  {
    MulMono(low, high, q);
    MulMono(q * low, q * high, factor);
  }

  /** The three notionals of a trade that reached its target. */
  lemma TargetNotionals(l: Levels, q: real, k: real, up: real, entry: real, exit: real)
    requires q > 0.0 && k > 0.0 && up > 0.0 && SlippedFills(l, k, up, entry, exit, true)
    ensures
      var n, x, level := Notional(q, entry), Notional(q, exit), Notional(q, l.takeProfit);
      if l.direction.Long? then x == level * k && level * up >= n else x == level * up && level * k <= n
  {
    hide Notional;
    if l.direction.Long? {
      NotionalScales(q, l.entry, up, entry);
      NotionalScales(q, l.takeProfit, k, exit);
      NotionalGrows(q, l.entry, l.takeProfit, up);
    } else {
      NotionalScales(q, l.entry, k, entry);
      NotionalScales(q, l.takeProfit, up, exit);
      NotionalGrows(q, l.takeProfit, l.entry, k);
    }
  }

  /** A target exit is within the spread of the entry. */
  lemma TargetNotional(l: Levels, q: real, s: real, k: real, up: real, entry: real, exit: real, risk: real)
    requires q > 0.0 && 0.0 <= s < 1.0 && k == 1.0 - s && up == 1.0 + s && risk >= 0.0
    requires SlippedFills(l, k, up, entry, exit, true) && Notional(q, entry) > 0.0
    ensures
      var n, x, fall := Notional(q, entry), Notional(q, exit), Adverse(s, Notional(q, entry), risk);
      if l.direction.Long? then x >= n - fall else x <= n + fall
  {
    var n, x := Notional(q, entry), Notional(q, exit);
    hide Adverse, Spread, Notional, SlippedFills;
    TargetNotionals(l, q, k, up, entry, exit);
    ExitAfterTarget(l.direction.Long?, s, k, up, n, Notional(q, l.takeProfit), x, risk);
  }

  /** A stop exit is within the risk cap and the slips of the entry. */
  lemma StopNotional(l: Levels, q: real, s: real, k: real, up: real, entry: real, exit: real, risk: real)
    requires q > 0.0 && 0.0 <= s < 1.0 && k == 1.0 - s && up == 1.0 + s && risk >= 0.0
    requires SlippedFills(l, k, up, entry, exit, false) && Notional(q, entry) > 0.0
    requires q * Abs(entry - l.stopLoss) <= risk
    ensures
      var n, x, fall := Notional(q, entry), Notional(q, exit), Adverse(s, Notional(q, entry), risk);
      if l.direction.Long? then x >= n - fall else x <= n + fall
  {
    var n, x, stop := Notional(q, entry), Notional(q, exit), q * l.stopLoss;
    hide Adverse;
    StopWithinRisk(q, entry, l.stopLoss, risk);
    assert x == stop * (if l.direction.Long? then k else up);
    ExitAfterStop(l.direction.Long?, s, k, up, n, stop, x, risk);
  }

  lemma StopWithinRisk(q: real, entry: real, stop: real, risk: real)
    requires q > 0.0 && q * Abs(entry - stop) <= risk
    ensures q * entry - risk <= q * stop <= q * entry + risk
  {
    assert q * (entry - stop) == q * entry - q * stop;
    assert q * (stop - entry) == q * stop - q * entry;
    MulMono(entry - stop, Abs(entry - stop), q);
    MulMono(stop - entry, Abs(entry - stop), q);
  }

  /** How far the exit notional can be on the wrong side of the entry notional. */
  lemma ExitWithinAdverseMove(
      l: Levels, q: real, s: real, entry: real, exit: real, risk: real, cap: real, win: bool)
    requires q > 0.0 && 0.0 <= s < 1.0 && risk >= 0.0 && SlippedFills(l, 1.0 - s, 1.0 + s, entry, exit, win)
    requires q * Abs(entry - l.stopLoss) <= risk && Notional(q, entry) <= cap
    ensures
      var n, x, fall := Notional(q, entry), Notional(q, exit), Adverse(s, cap, risk);
      && n > 0.0 && fall >= 0.0
      && if l.direction.Long? then x >= n - fall else x <= n + fall
  {
    var k, up := 1.0 - s, 1.0 + s;
    assert Notional(q, entry) > 0.0 by { MulStrict(0.0, entry, q); }
    AdverseGrows(s, Notional(q, entry), cap, risk);
    hide Adverse, Notional, SlippedFills;
    if win {
      TargetNotional(l, q, s, k, up, entry, exit, risk);
    } else {
      StopNotional(l, q, s, k, up, entry, exit, risk);
    }
  }

  // --- The money of a settled trade ------------------------------------------------

  /** The adverse move with the fee on it, the fee on both caps, and the funding. */
  function LossOf(fee: real, adverse: real, cap: real, funding: real): real {
    (1.0 + fee) * adverse + 2.0 * fee * cap + funding
  }

  lemma LossGrows(fee: real, adverse: real, cap: real, less: real, more: real)
    requires less <= more
    ensures LossOf(fee, adverse, cap, less) <= LossOf(fee, adverse, cap, more)
  {
  }

  /** Net profit from the two notionals. */
  function NetAfter(long: bool, n: real, x: real, fee: real, funding: real): real {
    (if long then x - n else n - x) - n * fee - x * fee - funding
  }

  lemma NetFromNotionals(long: bool, n: real, x: real, fee: real, funding: real, cap: real, adverse: real)
    requires 0.0 <= fee < 1.0 && 0.0 < n <= cap && adverse >= 0.0
    requires if long then x >= n - adverse else x <= n + adverse
    ensures NetAfter(long, n, x, fee, funding) >= -LossOf(fee, adverse, cap, funding)
  {
    var fn, fx, fa, fc := n * fee, x * fee, adverse * fee, cap * fee;
    assert fn <= fc by { MulMono(n, cap, fee); }
    assert fa >= 0.0 by { MulMono(0.0, fee, adverse); }
    assert (1.0 + fee) * adverse == adverse + fa && 2.0 * fee * cap == 2.0 * fc;
    if long {
      assert x - fx >= n - fn - adverse + fa by { ScaledFloor(n - adverse, x, fee, -1.0); }
    } else {
      assert x + fx <= n + fn + adverse + fa by { ScaledFloor(x, n + adverse, fee, 1.0); }
    }
  }

  lemma ScaledFloor(x: real, y: real, fee: real, sign: real)
    requires x <= y && 0.0 <= fee < 1.0 && (sign == 1.0 || sign == -1.0)
    ensures x + sign * (x * fee) <= y + sign * (y * fee)
  {
    MulMono(x, y, 1.0 + sign * fee);
  }

  /** The rates charged between two instants, both inclusive. */
  function RatesBetween(rates: seq<Funding>, start: int, end: int): real {
    if rates == [] then 0.0 else
      var last := rates[|rates| - 1];
      RatesBetween(rates[..|rates| - 1], start, end) + if start <= last.timestamp <= end then last.rate else 0.0
  }

  lemma {:induction false} FundingWithinCap(rates: seq<Funding>, size: real, cap: real, start: int, end: int)
    requires 0.0 <= size <= cap && forall i :: 0 <= i < |rates| ==> rates[i].rate >= 0.0
    ensures RatesBetween(rates, start, end) >= 0.0
    ensures FundingCost(rates, size, start, end) <= RatesBetween(rates, start, end) * cap
  {
    if rates != [] {
      var (front, last) := (rates[..|rates| - 1], rates[|rates| - 1]);
      FundingWithinCap(front, size, cap, start, end);
      MulMono(size, cap, last.rate);
      var sum := RatesBetween(front, start, end);
      assert (sum + last.rate) * cap == sum * cap + last.rate * cap;
    }
  }

  function SizeCap(c: Config): real {
    c.marginPerTrade * c.leverage as real
  }

  function RiskCap(c: Config, before: real): real {
    before * c.riskPercent / 100.0
  }

  /** The funding of a lifetime on a full-size position. */
  function FundingCap(c: Config, start: int, end: int): real {
    RatesBetween(c.fundingRates, start, end) * SizeCap(c)
  }

  /** Everything a trade can lose: the risked share and the slippage of both fills, with
      the fee on them, the fee on both caps, and the funding of its lifetime. */
  function WorstLoss(c: Config, before: real, start: int, end: int): real
    requires Slip(c) < 1.0
  {
    LossOf(c.feeRate, Adverse(Slip(c), SizeCap(c), RiskCap(c, before)), SizeCap(c), FundingCap(c, start, end))
  }

  /** A fill at the adverse price, within both caps, whatever the slippage. */
  lemma FillAtAdversePrice(c: Config, l: Levels, balance: real, time: int)
    requires ValidConfig(c) && OpenFill(c, l, balance, time).Success?
    ensures
      var f := OpenFill(c, l, balance, time).value;
      && balance > 0.0 && f.quantity > 0.0 && f.price > 0.0 && RiskCap(c, balance) >= 0.0
      && f.price == OpenPrice(c, l) && f.positionSize == Notional(f.quantity, f.price)
      && 0.0 <= f.positionSize <= SizeCap(c) && f.entryFee == f.positionSize * c.feeRate
      && f.quantity * Abs(f.price - l.stopLoss) <= RiskCap(c, balance)
  {
    hide ResolveQuantity, OpenPrice;
    var price := OpenPrice(c, l);
    SizingSucceedsExactlyWhenSizable(balance, c.marginPerTrade, c.leverage, c.riskPercent, price, l.stopLoss);
    var best := ResolveQuantity(balance, c.marginPerTrade, c.leverage, c.riskPercent, price, l.stopLoss).value.0;
    QuantityIsGreatestWithinBothCaps(balance, c.marginPerTrade, c.leverage, c.riskPercent, price, l.stopLoss, best);
    MulMono(0.0, balance, c.riskPercent);
    MulMono(0.0, best, price);
  }

  lemma PositiveFactor(x: real, y: real)
    requires x > 0.0
    ensures x * y > 0.0 ==> y > 0.0
  {
    if y <= 0.0 {
      MulMono(y, 0.0, x);
    }
  }

  /** The two prices of a settled trade in terms of the slip; that both are positive
      bounds the slip. */
  lemma SlippedPrices(c: Config, l: Levels, reason: Touch)
    requires c.slippageBps >= 0.0 && Ordered(l) && PositiveLevels(l)
    requires OpenPrice(c, l) > 0.0 && ClosePrice(c, l, reason) > 0.0
    ensures 0.0 <= Slip(c) < 1.0
    ensures
      SlippedFills(l, 1.0 - Slip(c), 1.0 + Slip(c), OpenPrice(c, l), ClosePrice(c, l, reason), reason.TpHit?)
  {
    var s, level := Slip(c), if reason.TpHit? then l.takeProfit else l.stopLoss;
    if l.direction.Long? {
      PositiveFactor(level, 1.0 - s);
    } else {
      PositiveFactor(l.entry, 1.0 - s);
    }
  }

  lemma ClosedNumbers(c: Config, l: Levels, f: Fill, reason: Touch, time: int)
    requires CloseFill(c, l, f, reason, time).Success?
    requires f.positionSize == Notional(f.quantity, f.price) && f.entryFee == f.positionSize * c.feeRate
    ensures ClosePrice(c, l, reason) > 0.0
    ensures
      var e := CloseFill(c, l, f, reason, time).value;
      && e.price == ClosePrice(c, l, reason)
      && e.funding == FundingCost(c.fundingRates, f.positionSize, f.time, time)
      && e.net == NetAfter(l.direction.Long?, f.positionSize, Notional(f.quantity, e.price), c.feeRate, e.funding)
  {
    hide ClosePrice, FundingCost;
    var price := ClosePrice(c, l, reason);
    assert (price - f.price) * f.quantity == f.quantity * price - f.quantity * f.price;
    assert (f.price - price) * f.quantity == f.quantity * f.price - f.quantity * price;
    assert price * f.quantity * c.feeRate == f.quantity * price * c.feeRate;
  }

  /** One settled trade never takes more than the worst loss of its lifetime. */
  lemma SettledNetIsBounded(c: Config, t: Trade, before: real, after: real)
    requires ValidConfig(c) && SettledFrom(c, t, before, after)
    ensures before > 0.0 && Slip(c) < 1.0
    ensures t.exit.value.net >= -WorstLoss(c, before, t.fill.time, t.exit.value.time)
  {
    hide OpenFill, CloseFill, OpenPrice, ClosePrice, Slip, Adverse, FundingCost, RatesBetween, LossOf, NetOf, Notional,
         SizeCap, RiskCap, SlippedFills;
    var l, f, exit := t.levels, t.fill, t.exit.value;
    var reason, cap, risk := exit.reason, SizeCap(c), RiskCap(c, before);
    FillAtAdversePrice(c, l, before, f.time);
    ClosedNumbers(c, l, f, reason, exit.time);
    SlippedPrices(c, l, reason);
    ExitWithinAdverseMove(l, f.quantity, Slip(c), f.price, exit.price, risk, cap, reason.TpHit?);
    FundingWithinCap(c.fundingRates, f.positionSize, cap, f.time, exit.time);
    var adverse, x := Adverse(Slip(c), cap, risk), Notional(f.quantity, exit.price);
    NetFromNotionals(l.direction.Long?, f.positionSize, x, c.feeRate, exit.funding, cap, adverse);
    LossGrows(c.feeRate, adverse, cap, exit.funding, FundingCap(c, f.time, exit.time));
  }

  /** EQUITY STEP BOUND for every configuration: whatever the slippage and the funding, no
      closed trade takes more out of the equity than the worst loss of its lifetime. */
  lemma EachEquityStepIsBoundedWithCosts(c: Config, market: Market, hours: seq<Candle>, minutes: seq<Candle>, k: nat)
    requires Runnable(c, hours, minutes) && Run(c, market, hours, minutes).Success?
    requires k + 1 < |Run(c, market, hours, minutes).value.state.equity|
    ensures
      var st := Run(c, market, hours, minutes).value.state;
      && k < |st.trades| && st.trades[k].exit.Some? && Slip(c) < 1.0 && st.equity[k] > 0.0
      && st.equity[k + 1]
         >= st.equity[k] - WorstLoss(c, st.equity[k], st.trades[k].fill.time, st.trades[k].exit.value.time)
  {
    hide Run, Touching, OpenFill, CloseFill, WorstLoss;
    RunEndsInInv(c, market, hours, minutes);
    var st := Run(c, market, hours, minutes).value.state;
    SettledNetIsBounded(c, st.trades[k], st.equity[k], st.equity[k + 1]);
  }

  function LossWithoutCosts(c: Config, before: real): real {
    RiskCap(c, before) + c.feeRate * (2.0 * SizeCap(c) + RiskCap(c, before))
  }

  lemma WorstLossWithoutCosts(c: Config, before: real, start: int, end: int)
    requires c.slippageBps == 0.0 && c.fundingRates == []
    ensures WorstLoss(c, before, start, end) == LossWithoutCosts(c, before)
  {
    hide SizeCap, RiskCap;
    var cap, risk := SizeCap(c), RiskCap(c, before);
    assert Slip(c) == 0.0 && FundingCap(c, start, end) == 0.0;
    assert Adverse(0.0, cap, risk) == risk;
    assert (1.0 + c.feeRate) * risk + 2.0 * c.feeRate * cap == risk + c.feeRate * (2.0 * cap + risk);
  }

  /** Its form without slippage and funding: the risked share of the equity the
      trade started from plus the fees on both caps. */
  lemma EachEquityStepIsBounded(c: Config, market: Market, hours: seq<Candle>, minutes: seq<Candle>, k: nat)
    requires Runnable(c, hours, minutes) && Run(c, market, hours, minutes).Success?
    requires c.slippageBps == 0.0 && c.fundingRates == []
    requires k + 1 < |Run(c, market, hours, minutes).value.state.equity|
    ensures
      var equity := Run(c, market, hours, minutes).value.state.equity;
      && equity[k] > 0.0
      && equity[k + 1] >= equity[k] - LossWithoutCosts(c, equity[k])
  {
    EachEquityStepIsBoundedWithCosts(c, market, hours, minutes, k);
    hide Run, Touching, WorstLoss, LossWithoutCosts;
    var st := Run(c, market, hours, minutes).value.state;
    WorstLossWithoutCosts(c, st.equity[k], st.trades[k].fill.time, st.trades[k].exit.value.time);
  }
}
