/** Every number of every trade of a run, in closed form: fill, sizing, exit, fees, funding
    and R multiple, from the configuration and the signal's levels alone. */
module TradeLaws {
  import opened Common
  import opened DemoAccount
  import opened Monitor
  import opened Replay
  import opened RunInvariants
  import opened RunTheorems

  // --- Funding ------------------------------------------------------------------

  /** The rates whose instant lies between entry and exit, both inclusive. */
  function ChargedRates(rates: seq<Funding>, start: int, end: int): seq<Funding> {
    if rates == [] then []
    else (if start <= rates[0].timestamp <= end then [rates[0]] else []) + ChargedRates(rates[1..], start, end)
  }

  function SumRates(rates: seq<Funding>): real {
    if rates == [] then 0.0 else rates[0].rate + SumRates(rates[1..])
  }

  lemma {:induction false} ChargedExactlyWhen(rates: seq<Funding>, start: int, end: int, f: Funding)
    ensures f in ChargedRates(rates, start, end) <==> f in rates && start <= f.timestamp <= end
  {
    if rates != [] {
      ChargedExactlyWhen(rates[1..], start, end, f);
    }
  }

  lemma {:induction false} CostsConcat(a: seq<Funding>, b: seq<Funding>, size: real, start: int, end: int)
    ensures FundingCost(a + b, size, start, end) == FundingCost(a, size, start, end) + FundingCost(b, size, start, end)
  {
    if b == [] {
      assert a + b == a;
    } else {
      var n := |b| - 1;
      assert (a + b)[..|a + b| - 1] == a + b[..n];
      CostsConcat(a, b[..n], size, start, end);
    }
  }

  lemma OneRateCosts(f: Funding, size: real, start: int, end: int)
    ensures FundingCost([f], size, start, end) == if start <= f.timestamp <= end then f.rate * size else 0.0
  {
    assert [f][..0] == [];
  }

  /** POINTWISE: at any place of the list a rate inside the lifetime adds rate times size,
      and one outside adds nothing. */
  lemma OneMoreRateCosts(a: seq<Funding>, f: Funding, b: seq<Funding>, size: real, start: int, end: int)
    ensures FundingCost(a + [f] + b, size, start, end)
         == FundingCost(a + b, size, start, end) + if start <= f.timestamp <= end then f.rate * size else 0.0
  {
    CostsConcat(a + [f], b, size, start, end);
    CostsConcat(a, [f], size, start, end);
    CostsConcat(a, b, size, start, end);
    OneRateCosts(f, size, start, end);
  }

  /** FUNDING, in one formula: the position size times the sum of the charged rates. */
  lemma {:induction false} FundingIsTheChargedSum(rates: seq<Funding>, size: real, start: int, end: int)
    ensures FundingCost(rates, size, start, end) == size * SumRates(ChargedRates(rates, start, end))
  {
    hide FundingCost, ChargedRates, SumRates;
    if rates == [] {
      NothingCharged(size, start, end);
    } else {
      var (f, rest) := (rates[0], rates[1..]);
      var (total, sum) := (SumRates(ChargedRates(rest, start, end)), SumRates(ChargedRates(rates, start, end)));
      FirstRateCosts(rates, size, start, end);
      FundingIsTheChargedSum(rest, size, start, end);
      OneMoreCharged(rates, start, end);
      Distributes(size, f.rate, total, sum, start <= f.timestamp <= end, FundingCost(rates, size, start, end));
    }
  }

  lemma NothingCharged(size: real, start: int, end: int)
    ensures FundingCost([], size, start, end) == 0.0 && SumRates(ChargedRates([], start, end)) == 0.0
  {
  }

  lemma FirstRateCosts(rates: seq<Funding>, size: real, start: int, end: int)
    requires rates != []
    ensures FundingCost(rates, size, start, end) == FundingCost(rates[1..], size, start, end)
            + if start <= rates[0].timestamp <= end then rates[0].rate * size else 0.0
  {
    assert rates == [rates[0]] + rates[1..];
    CostsConcat([rates[0]], rates[1..], size, start, end);
    OneRateCosts(rates[0], size, start, end);
  }

  lemma OneMoreCharged(rates: seq<Funding>, start: int, end: int)
    requires rates != []
    ensures
      var total := SumRates(ChargedRates(rates[1..], start, end));
      SumRates(ChargedRates(rates, start, end))
      == if start <= rates[0].timestamp <= end then rates[0].rate + total else total
  {
    var charged := ChargedRates(rates[1..], start, end);
    assert ([rates[0]] + charged)[1..] == charged && [] + charged == charged;
  }

  lemma Distributes(size: real, rate: real, total: real, sum: real, charged: bool, cost: real)
    requires sum == if charged then rate + total else total
    requires cost == size * total + if charged then rate * size else 0.0
    ensures cost == size * sum
  {
  }

  // --- Fills and exits -----------------------------------------------------------

  predicate WithinCaps(c: Config, balance: real, price: real, stop: real, q: real) {
    q * price <= c.marginPerTrade * c.leverage as real && q * Abs(price - stop) <= balance * c.riskPercent / 100.0
  }

  /** The factor by which slippage moves a price against the one who trades. */
  function Adverse(c: Config, buying: bool): real {
    if buying then 1.0 + c.slippageBps / 10000.0 else 1.0 - c.slippageBps / 10000.0
  }

  ghost predicate FilledRight(c: Config, l: Levels, balance: real, f: Fill) {
    && f.price == l.entry * Adverse(c, l.direction.Long?)
    && f.quantity > 0.0 && f.positionSize == f.quantity * f.price && f.entryFee == f.positionSize * c.feeRate
    && f.riskAmount == Abs(f.price - l.stopLoss) * f.quantity
    && forall q :: WithinCaps(c, balance, f.price, l.stopLoss, q) <==> q <= f.quantity
  }

  ghost predicate ClosedRight(c: Config, l: Levels, f: Fill, e: Exit) {
    && IsExit(e.reason)
    && e.price == (if e.reason.TpHit? then l.takeProfit else l.stopLoss) * Adverse(c, !l.direction.Long?)
    && e.gross == (if l.direction.Long? then e.price - f.price else f.price - e.price) * f.quantity
    && e.fee == e.price * f.quantity * c.feeRate
    && e.funding == f.positionSize * SumRates(ChargedRates(c.fundingRates, f.time, e.time))
    && e.net == e.gross - f.entryFee - e.fee - e.funding
    && (e.rMultiple.Some? <==> f.riskAmount > 0.0)
    && (f.riskAmount > 0.0 ==> e.rMultiple.value * f.riskAmount == e.net)
  }

  lemma QuantityIsRight(c: Config, l: Levels, balance: real, price: real)
    requires ResolveQuantity(balance, c.marginPerTrade, c.leverage, c.riskPercent, price, l.stopLoss).Success?
    ensures
      var best := ResolveQuantity(balance, c.marginPerTrade, c.leverage, c.riskPercent, price, l.stopLoss).value.0;
      best > 0.0 && forall q :: WithinCaps(c, balance, price, l.stopLoss, q) <==> q <= best
  {
    hide ResolveQuantity, Sizable;
    SizingSucceedsExactlyWhenSizable(balance, c.marginPerTrade, c.leverage, c.riskPercent, price, l.stopLoss);
    var best := ResolveQuantity(balance, c.marginPerTrade, c.leverage, c.riskPercent, price, l.stopLoss).value.0;
    QuantityIsGreatestWithinBothCaps(balance, c.marginPerTrade, c.leverage, c.riskPercent, price, l.stopLoss, 0.0);
    forall q ensures WithinCaps(c, balance, price, l.stopLoss, q) <==> q <= best {
      QuantityIsGreatestWithinBothCaps(balance, c.marginPerTrade, c.leverage, c.riskPercent, price, l.stopLoss, q);
    }
  }

  lemma FillIsRight(c: Config, l: Levels, balance: real, time: int)
    requires OpenFill(c, l, balance, time).Success?
    ensures FilledRight(c, l, balance, OpenFill(c, l, balance, time).value)
  {
    hide ResolveQuantity, SlippageFactor, Adverse, WithinCaps, Abs;
    FactorIsAdverse(c, l.direction, true);
    QuantityIsRight(c, l, balance, OpenPrice(c, l));
  }

  lemma FactorIsAdverse(c: Config, d: Direction, entering: bool)
    ensures SlippageFactor(c.slippageBps, d, entering) == Adverse(c, entering == d.Long?)
  {
  }

  lemma ExitIsRight(c: Config, l: Levels, f: Fill, reason: Touch, time: int)
    requires CloseFill(c, l, f, reason, time).Success? && IsExit(reason)
    ensures ClosedRight(c, l, f, CloseFill(c, l, f, reason, time).value)
  {
    hide SlippageFactor, FundingCost, ChargedRates, SumRates;
    FactorIsAdverse(c, l.direction, false);
    FundingIsTheChargedSum(c.fundingRates, f.positionSize, f.time, time);
    var e := CloseFill(c, l, f, reason, time).value;
    if f.riskAmount > 0.0 {
      assert e.net / f.riskAmount * f.riskAmount == e.net;
    }
  }

  /** EVERY TRADE OF A RUN: filled and sized by the balance the equity curve shows before
      it, and, if it closed, with exactly these exit numbers. */
  lemma EveryTradeIsPricedRight(c: Config, market: Market, hours: seq<Candle>, minutes: seq<Candle>, k: nat)
    requires Runnable(c, hours, minutes) && Run(c, market, hours, minutes).Success?
    requires k < |Run(c, market, hours, minutes).value.trades|
    ensures
      var r := Run(c, market, hours, minutes).value;
      var t := r.trades[k];
      && k < |r.state.equity| && FilledRight(c, t.levels, r.state.equity[k], t.fill)
      && (t.exit.Some? ==> ClosedRight(c, t.levels, t.fill, t.exit.value) && k + 1 < |r.state.equity|
                           && r.state.equity[k + 1] == r.state.equity[k] + t.exit.value.net)
  {
    hide Run, Touching, OpenFill, CloseFill, FilledRight, ClosedRight, Tally;
    RunEndsInInv(c, market, hours, minutes);
    var r := Run(c, market, hours, minutes).value;
    var t := r.trades[k];
    if k < |r.state.trades| {
      assert SettledFrom(c, t, r.state.equity[k], r.state.equity[k + 1]);
      FillIsRight(c, t.levels, r.state.equity[k], t.fill.time);
      ExitIsRight(c, t.levels, t.fill, t.exit.value.reason, t.exit.value.time);
    } else {
      FillIsRight(c, t.levels, r.state.equity[k], t.fill.time);
    }
  }
}
