/** The demo account's pure arithmetic (demo/account.py): sizing, profit and
    loss, fees, slippage, peak equity and drawdown. */
module DemoAccount {
  import opened Common

  datatype CalcError = NotPositive(field: string) | Negative(field: string) | StopEqualsEntry | BadLeverage

  type Calc<T> = Result<T, CalcError>

  datatype Rule = MarginRule | RiskRule

  function RequirePositive(x: real, field: string): Outcome<CalcError> {
    Need(x > 0.0, NotPositive(field))
  }

  function RequireNonnegative(x: real, field: string): Outcome<CalcError> {
    Need(x >= 0.0, Negative(field))
  }

  function RiskAmount(balance: real, riskPercent: real): Calc<real> {
    var _ :- RequirePositive(balance, "balance");
    var _ :- RequirePositive(riskPercent, "risk_percent");
    Success(balance * riskPercent / 100.0)
  }

  function PositionSize(margin: real, leverage: int): Calc<real> {
    var _ :- RequirePositive(margin, "margin_per_trade");
    var _ :- Need(leverage >= 1, BadLeverage);
    Success(margin * leverage as real)
  }

  function PositionQuantity(notional: real, entry: real): Calc<real> {
    var _ :- RequirePositive(notional, "position_notional");
    var _ :- RequirePositive(entry, "entry_price");
    Success(notional / entry)
  }

  /** The quantity to trade and the cap that bound it (ties go to the margin). */
  function ResolveQuantity(
      balance: real, margin: real, leverage: int, riskPercent: real, entry: real, stop: real): Calc<(real, Rule)> {
    var _ :- RequirePositive(balance, "balance");
    var _ :- RequirePositive(entry, "entry_price");
    var _ :- RequirePositive(stop, "stop_loss");
    var _ :- Need(Abs(entry - stop) > 0.0, StopEqualsEntry);
    var notional :- PositionSize(margin, leverage);
    var qtyMargin :- PositionQuantity(notional, entry);
    var risk :- RiskAmount(balance, riskPercent);
    var qtyRisk := risk / Abs(entry - stop);
    if qtyRisk < qtyMargin then Success((qtyRisk, RiskRule)) else Success((qtyMargin, MarginRule))
  }

  function GrossPnl(direction: Direction, entry: real, exit: real, quantity: real): Calc<real> {
    var _ :- RequirePositive(entry, "entry_price");
    var _ :- RequirePositive(exit, "exit_price");
    var _ :- RequirePositive(quantity, "quantity");
    Success(if direction.Long? then (exit - entry) * quantity else (entry - exit) * quantity)
  }

  function EntryFee(notional: real, feeRate: real): Calc<real> {
    var _ :- RequirePositive(notional, "position_notional");
    var _ :- RequireNonnegative(feeRate, "fee_rate");
    Success(notional * feeRate)
  }

  function ExitFee(exit: real, quantity: real, feeRate: real): Calc<real> {
    var _ :- RequirePositive(exit, "exit_price");
    var _ :- RequirePositive(quantity, "quantity");
    var _ :- RequireNonnegative(feeRate, "fee_rate");
    Success(exit * quantity * feeRate)
  }

  function TotalFee(notional: real, exit: real, quantity: real, feeRate: real): Calc<real> {
    var onEntry :- EntryFee(notional, feeRate);
    var onExit :- ExitFee(exit, quantity, feeRate);
    Success(onEntry + onExit)
  }

  function NetPnl(
      direction: Direction, entry: real, exit: real, quantity: real, notional: real, feeRate: real): Calc<real> {
    var gross :- GrossPnl(direction, entry, exit, quantity);
    var fees :- TotalFee(notional, exit, quantity, feeRate);
    Success(gross - fees)
  }

  /** Adverse fill factor; 0 bps is exactly 1. */
  function SlippageFactor(bps: real, direction: Direction, entering: bool): real {
    if bps == 0.0 then 1.0 else
      var slip := bps / 10000.0;
      if entering == direction.Long? then 1.0 + slip else 1.0 - slip
  }

  function CurrentDrawdown(peak: real, equity: real): Calc<real> {
    var _ :- RequireNonnegative(peak, "peak_equity");
    var _ :- RequireNonnegative(equity, "equity");
    Success(if peak - equity > 0.0 then peak - equity else 0.0)
  }

  /** Sizing fails on exactly these inputs. */
  predicate Sizable(balance: real, margin: real, leverage: int, riskPercent: real, entry: real, stop: real) {
    balance > 0.0 && margin > 0.0 && leverage >= 1 && riskPercent > 0.0 && entry > 0.0 && stop > 0.0 && entry != stop
  }

  lemma SizingSucceedsExactlyWhenSizable(
      balance: real, margin: real, leverage: int, riskPercent: real, entry: real, stop: real)
    ensures ResolveQuantity(balance, margin, leverage, riskPercent, entry, stop).Success?
       <==> Sizable(balance, margin, leverage, riskPercent, entry, stop)
  {
    if margin > 0.0 && leverage >= 1 {
      MulStrict(0.0, margin, leverage as real);
    }
  }

  /** The smaller of two quotients is the greatest number within both caps. */
  lemma SmallerQuotientMeetsBothCaps(notional: real, entry: real, risk: real, dist: real, q: real)
    requires notional > 0.0 && entry > 0.0 && risk > 0.0 && dist > 0.0
    ensures Min(notional / entry, risk / dist) > 0.0
    ensures q <= Min(notional / entry, risk / dist) <==> q * entry <= notional && q * dist <= risk
  {
    DivBounds(q, notional, entry);
    DivBounds(q, risk, dist);
    assert notional / entry * entry == notional;
    assert risk / dist * dist == risk;
    if notional / entry <= 0.0 {
      MulMono(notional / entry, 0.0, entry);
    }
    if risk / dist <= 0.0 {
      MulMono(risk / dist, 0.0, dist);
    }
  }

  lemma QuantityIsSmallerQuotient(
      balance: real, margin: real, leverage: int, riskPercent: real, entry: real, stop: real)
    requires Sizable(balance, margin, leverage, riskPercent, entry, stop)
    ensures
      var notional, risk := margin * leverage as real, balance * riskPercent / 100.0;
      var byMargin, byRisk := notional / entry, risk / Abs(entry - stop);
      ResolveQuantity(balance, margin, leverage, riskPercent, entry, stop)
      == Success((Min(byMargin, byRisk), if byRisk < byMargin then RiskRule else MarginRule))
  {
    SizingSucceedsExactlyWhenSizable(balance, margin, leverage, riskPercent, entry, stop);
    var notional, risk := margin * leverage as real, balance * riskPercent / 100.0;
    assert PositionSize(margin, leverage) == Success(notional);
    assert RiskAmount(balance, riskPercent) == Success(risk);
    assert PositionQuantity(notional, entry) == Success(notional / entry);
  }

  /** The resolved quantity is the greatest one that respects both the margin cap
      and the risk cap, and the reported rule names a cap that is met exactly. */
  lemma QuantityIsGreatestWithinBothCaps(
      balance: real, margin: real, leverage: int, riskPercent: real, entry: real, stop: real, q: real)
    requires Sizable(balance, margin, leverage, riskPercent, entry, stop)
    ensures ResolveQuantity(balance, margin, leverage, riskPercent, entry, stop).Success?
    ensures
      var (best, rule) := ResolveQuantity(balance, margin, leverage, riskPercent, entry, stop).value;
      && best > 0.0
      && (q <= best <==>
            q * entry <= margin * leverage as real && q * Abs(entry - stop) <= balance * riskPercent / 100.0)
      && (rule.MarginRule? ==> best * entry == margin * leverage as real)
      && (rule.RiskRule? ==> best * Abs(entry - stop) == balance * riskPercent / 100.0)
  {
    QuantityIsSmallerQuotient(balance, margin, leverage, riskPercent, entry, stop);
    var notional, risk, dist := margin * leverage as real, balance * riskPercent / 100.0, Abs(entry - stop);
    assert notional > 0.0 by { MulStrict(0.0, margin, leverage as real); }
    assert risk > 0.0 by { MulStrict(0.0, balance, riskPercent); }
    SmallerQuotientMeetsBothCaps(notional, entry, risk, dist, q);
    assert notional / entry * entry == notional;
    assert risk / dist * dist == risk;
  }

  /** Net profit of a position whose notional is quantity times entry price. */
  function NetOf(direction: Direction, entry: real, exit: real, quantity: real, feeRate: real): real {
    quantity * ((if direction.Long? then exit - entry else entry - exit) - feeRate * (entry + exit))
  }

  lemma NetPnlIsNetOf(direction: Direction, entry: real, exit: real, quantity: real, notional: real, feeRate: real)
    requires entry > 0.0 && exit > 0.0 && quantity > 0.0 && feeRate >= 0.0 && notional == quantity * entry
    ensures NetPnl(direction, entry, exit, quantity, notional, feeRate).Success?
    ensures NetPnl(direction, entry, exit, quantity, notional, feeRate).value
         == NetOf(direction, entry, exit, quantity, feeRate)
  {
    MulStrict(0.0, quantity, entry);
    var gross := GrossPnl(direction, entry, exit, quantity).value;
    var fees := TotalFee(notional, exit, quantity, feeRate).value;
    assert fees == notional * feeRate + exit * quantity * feeRate;
    assert fees == quantity * (feeRate * (entry + exit));
    if direction.Long? {
      assert gross == (exit - entry) * quantity;
    } else {
      assert gross == (entry - exit) * quantity;
    }
  }
}
