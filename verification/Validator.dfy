/** The guardrails between an analysis and a persisted signal
    (signal_engine/validator.py), and what the fee guard means for profit. */
module Validator {
  import opened Common
  import DemoAccount

  datatype Decision = LongDecision | ShortDecision | WaitDecision | UnknownDecision(text: string)

  /** The fields of an analysis that validation reads; `None` is a missing,
      non-finite or non-numeric value. */
  datatype Analysis = Analysis(
    decision: Decision, confidence: Option<real>,
    entry: Option<real>, stopLoss: Option<real>, takeProfit: Option<real>,
    fundingRate: Option<real>, regime: Regime, atr: Option<real>, candleClose: Option<real>)

  datatype Guards = Guards(
    minConfidence: int, minRiskReward: real, feeRate: real, maxFundingRate: real, htfBias: bool)

  datatype Rejection =
    | NotTradable | MissingLevel | BadPrice(field: string) | BadOrdering | BadConfidence
    | LowConfidence | CrowdedSide | CounterTrend | LowRiskReward | FeesNotCovered
    | StopOutsideAtr | TargetOutsideAtr | StaleEntry

  type Checked<T> = Result<T, Rejection>

  datatype Candidate = Candidate(levels: Levels, confidence: int)

  const ATR_STOP_MIN := 0.5
  const ATR_STOP_MAX := 5.0
  const ATR_TARGET_MIN := 0.5
  const ATR_TARGET_MAX := 8.0
  const ENTRY_PROXIMITY_ATR := 1.5
  const FEE_COVER_MULTIPLE := 2.0

  function ToPrice(value: real, field: string): Outcome<Rejection> {
    Need(value > 0.0, BadPrice(field))
  }

  /** Half-up rounding of a confidence inside [0, 100]. */
  function ValidateConfidence(confidence: Option<real>): Checked<int> {
    var _ :- Need(confidence.Some? && 0.0 <= confidence.value <= 100.0, BadConfidence);
    Success((confidence.value + 0.5).Floor)
  }

  function ValidateFundingCrowd(direction: Direction, fundingRate: Option<real>, guards: Guards): Outcome<Rejection> {
    if guards.maxFundingRate <= 0.0 || fundingRate.None? then Pass
    else if direction.Long? then Need(fundingRate.value <= guards.maxFundingRate, CrowdedSide)
    else Need(fundingRate.value >= -guards.maxFundingRate, CrowdedSide)
  }

  function ValidateHtfBias(direction: Direction, regime: Regime, guards: Guards): Outcome<Rejection> {
    if !guards.htfBias then Pass
    else Need(!(direction.Long? && regime.Down?) && !(direction.Short? && regime.Up?), CounterTrend)
  }

  function StopDistance(l: Levels): real {
    Abs(l.entry - l.stopLoss)
  }

  function TargetDistance(l: Levels): real {
    Abs(l.takeProfit - l.entry)
  }

  function ValidateTradeLevels(l: Levels, atr: Option<real>, close: Option<real>, guards: Guards): Outcome<Rejection>
    requires Ordered(l)
  {
    if guards.minRiskReward > 0.0 && TargetDistance(l) / StopDistance(l) < guards.minRiskReward then Fail(LowRiskReward)
    else if guards.feeRate > 0.0 && TargetDistance(l) < l.entry * guards.feeRate * FEE_COVER_MULTIPLE
    then Fail(FeesNotCovered)
    else if atr.None? || atr.value <= 0.0 then Pass
    else if !(ATR_STOP_MIN * atr.value <= StopDistance(l) <= ATR_STOP_MAX * atr.value) then Fail(StopOutsideAtr)
    else if !(ATR_TARGET_MIN * atr.value <= TargetDistance(l) <= ATR_TARGET_MAX * atr.value) then Fail(TargetOutsideAtr)
    else if close.Some? && Abs(l.entry - close.value) > ENTRY_PROXIMITY_ATR * atr.value then Fail(StaleEntry)
    else Pass
  }

  function ValidateAnalysis(a: Analysis, guards: Guards): Checked<Candidate> {
    var _ :- Need(a.decision.LongDecision? || a.decision.ShortDecision?, NotTradable);
    var direction := if a.decision.LongDecision? then Long else Short;
    var _ :- Need(a.entry.Some? && a.stopLoss.Some? && a.takeProfit.Some?, MissingLevel);
    var _ :- ToPrice(a.entry.value, "entry_price");
    var _ :- ToPrice(a.stopLoss.value, "stop_loss");
    var _ :- ToPrice(a.takeProfit.value, "take_profit");
    var levels := Levels(direction, a.entry.value, a.stopLoss.value, a.takeProfit.value);
    var _ :- Need(Ordered(levels), BadOrdering);
    var confidence :- ValidateConfidence(a.confidence);
    var _ :- Need(confidence >= guards.minConfidence, LowConfidence);
    var _ :- ValidateFundingCrowd(direction, a.fundingRate, guards);
    var _ :- ValidateHtfBias(direction, a.regime, guards);
    var _ :- Need(a.candleClose.None? || a.candleClose.value > 0.0, BadPrice("candle_close_price"));
    var atr := if a.atr.Some? && a.atr.value > 0.0 then a.atr else None;
    var _ :- ValidateTradeLevels(levels, atr, a.candleClose, guards);
    Success(Candidate(levels, confidence))
  }

  /** Rounding is to the nearest integer, ties upwards, and stays within 0..100. */
  lemma ConfidenceRoundsHalfUp(confidence: Option<real>)
    ensures ValidateConfidence(confidence).Success? <==> confidence.Some? && 0.0 <= confidence.value <= 100.0
    ensures ValidateConfidence(confidence).Success? ==>
              var n := ValidateConfidence(confidence).value;
              0 <= n <= 100 && n as real - 0.5 <= confidence.value < n as real + 0.5
  {
  }

  /** The levels an analysis proposes. */
  function Proposed(a: Analysis): Option<Levels> {
    if a.entry.None? || a.stopLoss.None? || a.takeProfit.None? then None
    else if a.decision.LongDecision? then Some(Levels(Long, a.entry.value, a.stopLoss.value, a.takeProfit.value))
    else if a.decision.ShortDecision? then Some(Levels(Short, a.entry.value, a.stopLoss.value, a.takeProfit.value))
    else None
  }

  /** The side is neither overcrowded nor against a clear 4H regime. */
  predicate SideIsFree(d: Direction, a: Analysis, guards: Guards) {
    && (guards.maxFundingRate > 0.0 && a.fundingRate.Some? ==>
          if d.Long? then a.fundingRate.value <= guards.maxFundingRate
          else -a.fundingRate.value <= guards.maxFundingRate)
    && (guards.htfBias ==> a.regime != if d.Long? then Down else Up)
  }

  /** Distances fit the risk-reward floor, the fee floor and the ATR windows. */
  predicate DistancesFit(l: Levels, a: Analysis, guards: Guards) {
    var (stop, target) := (StopDistance(l), TargetDistance(l));
    && (guards.minRiskReward > 0.0 ==> guards.minRiskReward * stop <= target)
    && (guards.feeRate > 0.0 ==> 2.0 * guards.feeRate * l.entry <= target)
    && (a.atr.Some? && a.atr.value > 0.0 ==>
          && 0.5 * a.atr.value <= stop <= 5.0 * a.atr.value && 0.5 * a.atr.value <= target <= 8.0 * a.atr.value
          && (a.candleClose.Some? ==> Abs(l.entry - a.candleClose.value) <= 1.5 * a.atr.value))
  }

  predicate Acceptable(a: Analysis, guards: Guards) {
    && Proposed(a).Some? && Ordered(Proposed(a).value) && PositiveLevels(Proposed(a).value)
    && ValidateConfidence(a.confidence).Success? && ValidateConfidence(a.confidence).value >= guards.minConfidence
    && SideIsFree(Proposed(a).value.direction, a, guards)
    && (a.candleClose.Some? ==> a.candleClose.value > 0.0)
    && DistancesFit(Proposed(a).value, a, guards)
  }

  lemma DistancesFitExactlyWhen(l: Levels, a: Analysis, guards: Guards)
    requires Ordered(l)
    ensures
      var atr := if a.atr.Some? && a.atr.value > 0.0 then a.atr else None;
      ValidateTradeLevels(l, atr, a.candleClose, guards).Pass? <==> DistancesFit(l, a, guards)
  {
    DivBounds(guards.minRiskReward, TargetDistance(l), StopDistance(l));
    assert l.entry * guards.feeRate * FEE_COVER_MULTIPLE == 2.0 * guards.feeRate * l.entry;
  }

  /** ACCEPTANCE, exactly when: complete, positive, ordered levels; enough confidence; a
      free side; fitting distances. The candidate carries the proposed levels unchanged. */
  lemma AcceptedExactlyWhen(a: Analysis, guards: Guards)
    ensures ValidateAnalysis(a, guards).Success? <==> Acceptable(a, guards)
    ensures ValidateAnalysis(a, guards).Success? ==> Proposed(a) == Some(ValidateAnalysis(a, guards).value.levels)
    ensures ValidateAnalysis(a, guards).Success? ==>
              var n := ValidateAnalysis(a, guards).value.confidence as real;
              a.confidence.Some? && n - 0.5 <= a.confidence.value < n + 0.5
  {
    if Proposed(a).Some? && Ordered(Proposed(a).value) {
      DistancesFitExactlyWhen(Proposed(a).value, a, guards);
    }
    ConfidenceRoundsHalfUp(a.confidence);
    hide ValidateTradeLevels, DistancesFit, ValidateConfidence;
  }

  /** Decision, levels, ordering: the first three checks passed. */
  predicate Shaped(a: Analysis) {
    Proposed(a).Some? && PositiveLevels(Proposed(a).value) && Ordered(Proposed(a).value)
  }

  predicate Sure(a: Analysis) {
    Shaped(a) && a.confidence.Some? && 0.0 <= a.confidence.value <= 100.0
  }

  /** THE REASON, exactly: the first failing check names it, in the order decision, levels,
      their prices, ordering, confidence, funding crowd, regime, last close, distances. */
  lemma RejectedForTheFirstFailure(a: Analysis, guards: Guards)
    ensures
      var r := ValidateAnalysis(a, guards);
      var tradable := a.decision.LongDecision? || a.decision.ShortDecision?;
      var enough := Sure(a) && (a.confidence.value + 0.5).Floor >= guards.minConfidence;
      && (r == Failure(NotTradable) <==> !tradable)
      && (r == Failure(MissingLevel) <==> tradable && Proposed(a).None?)
      && (r == Failure(BadOrdering)
          <==> Proposed(a).Some? && PositiveLevels(Proposed(a).value) && !Ordered(Proposed(a).value))
      && (r == Failure(BadConfidence) <==> Shaped(a) && !Sure(a))
      && (r == Failure(LowConfidence) <==> Sure(a) && !enough)
      && (r == Failure(CrowdedSide)
          <==> enough && guards.maxFundingRate > 0.0 && a.fundingRate.Some?
               && guards.maxFundingRate < (if a.decision.LongDecision? then a.fundingRate.value
                                           else -a.fundingRate.value))
      && (r == Failure(CounterTrend)
          <==> enough && r != Failure(CrowdedSide) && guards.htfBias
               && a.regime == if a.decision.LongDecision? then Down else Up)
    ensures
      var r := ValidateAnalysis(a, guards);
      Proposed(a).Some? ==>
        var l := Proposed(a).value;
        && (r == Failure(BadPrice("entry_price")) <==> l.entry <= 0.0)
        && (r == Failure(BadPrice("stop_loss")) <==> l.entry > 0.0 && l.stopLoss <= 0.0)
        && (r == Failure(BadPrice("take_profit")) <==> l.entry > 0.0 && l.stopLoss > 0.0 && l.takeProfit <= 0.0)
  {
    if Proposed(a).Some? && Ordered(Proposed(a).value) {
      LevelReasonsAreLater(a, guards);
    }
    hide ValidateTradeLevels;
  }

  /** Once the side is free the last close is checked, and then the distances decide. */
  lemma RejectedLast(a: Analysis, guards: Guards)
    requires Sure(a) && (a.confidence.value + 0.5).Floor >= guards.minConfidence
    requires SideIsFree(Proposed(a).value.direction, a, guards)
    ensures
      var r := ValidateAnalysis(a, guards);
      var distances := ValidateTradeLevels(Proposed(a).value, if a.atr.Some? && a.atr.value > 0.0 then a.atr else None,
                                           a.candleClose, guards);
      if a.candleClose.Some? && a.candleClose.value <= 0.0 then r == Failure(BadPrice("candle_close_price"))
      else if distances.Fail? then r == Failure(distances.error)
      else r.Success?
  {
    hide ValidateTradeLevels;
  }

  lemma LevelReasonsAreLater(a: Analysis, guards: Guards)
    requires Proposed(a).Some? && Ordered(Proposed(a).value)
    ensures forall atr: Option<real>, close: Option<real> ::
              ValidateTradeLevels(Proposed(a).value, atr, close, guards).Fail? ==>
                ValidateTradeLevels(Proposed(a).value, atr, close, guards).error
                in {LowRiskReward, FeesNotCovered, StopOutsideAtr, TargetOutsideAtr, StaleEntry}
  {
  }

  /** What each distance reason says of the levels, in the order of the checks. */
  lemma DistanceReasons(l: Levels, atr: Option<real>, close: Option<real>, guards: Guards)
    requires Ordered(l)
    ensures
      var (stop, target, r) := (StopDistance(l), TargetDistance(l), ValidateTradeLevels(l, atr, close, guards));
      var poor := guards.minRiskReward > 0.0 && target < guards.minRiskReward * stop;
      var costly := guards.feeRate > 0.0 && target < 2.0 * guards.feeRate * l.entry;
      var measured := !poor && !costly && atr.Some? && atr.value > 0.0;
      var wide := measured && !(0.5 * atr.value <= stop <= 5.0 * atr.value);
      var far := measured && !(0.5 * atr.value <= target <= 8.0 * atr.value);
      var stale := measured && close.Some? && Abs(l.entry - close.value) > 1.5 * atr.value;
      && (r == Fail(LowRiskReward) <==> poor) && (r == Fail(FeesNotCovered) <==> !poor && costly)
      && (r == Fail(StopOutsideAtr) <==> wide) && (r == Fail(TargetOutsideAtr) <==> !wide && far)
      && (r == Fail(StaleEntry) <==> !wide && !far && stale)
      && (r.Pass? <==> !poor && !costly && !wide && !far && !stale)
  {
    DivBounds(guards.minRiskReward, TargetDistance(l), StopDistance(l));
    assert l.entry * guards.feeRate * FEE_COVER_MULTIPLE == 2.0 * guards.feeRate * l.entry;
  }

  /** What a caller may rely on once an analysis was accepted. */
  lemma AcceptedSignalsAreWellFormed(a: Analysis, guards: Guards)
    requires ValidateAnalysis(a, guards).Success?
    ensures
      var c := ValidateAnalysis(a, guards).value;
      && Ordered(c.levels) && PositiveLevels(c.levels)
      && (a.decision.LongDecision? <==> c.levels.direction.Long?)
      && (a.decision.ShortDecision? <==> c.levels.direction.Short?)
      && guards.minConfidence <= c.confidence && 0 <= c.confidence <= 100
      && (guards.feeRate > 0.0 ==> TargetDistance(c.levels) >= 2.0 * c.levels.entry * guards.feeRate)
      && (guards.minRiskReward > 0.0 ==> TargetDistance(c.levels) >= guards.minRiskReward * StopDistance(c.levels))
  {
    var l := ValidateAnalysis(a, guards).value.levels;
    if guards.minRiskReward > 0.0 {
      DivBounds(guards.minRiskReward, TargetDistance(l), StopDistance(l));
    }
  }

  /** Net profit when a position of `quantity` entered at `l.entry` closes at its
      take profit, with the account's own fee rule. */
  function NetAtTarget(l: Levels, quantity: real, feeRate: real): DemoAccount.Calc<real> {
    DemoAccount.NetPnl(l.direction, l.entry, l.takeProfit, quantity, quantity * l.entry, feeRate)
  }

  lemma CoveredShortAtTarget(l: Levels, quantity: real, f: real)
    requires l.direction.Short? && Ordered(l) && PositiveLevels(l)
    requires 0.0 < f < 1.0 && quantity > 0.0 && l.entry - l.takeProfit >= 2.0 * l.entry * f
    ensures NetAtTarget(l, quantity, f).Success? && NetAtTarget(l, quantity, f).value > 0.0
  {
    DemoAccount.NetPnlIsNetOf(Short, l.entry, l.takeProfit, quantity, quantity * l.entry, f);
    var perUnit := l.entry - l.takeProfit - f * (l.entry + l.takeProfit);
    assert NetAtTarget(l, quantity, f).value == quantity * perUnit;
    assert perUnit > 0.0 by { MulStrict(l.entry + l.takeProfit, 2.0 * l.entry, f); }
    MulStrict(0.0, perUnit, quantity);
  }

  /** A SHORT that the fee guard let through always earns at its take profit. */
  lemma AcceptedShortEarnsAtTarget(a: Analysis, guards: Guards, quantity: real)
    requires 0.0 < guards.feeRate < 1.0 && quantity > 0.0 && a.decision.ShortDecision?
    ensures
      var accepted := ValidateAnalysis(a, guards);
      accepted.Success? ==>
        var net := NetAtTarget(accepted.value.levels, quantity, guards.feeRate);
        net.Success? && net.value > 0.0
  {
    hide ValidateAnalysis, NetAtTarget, Ordered;
    if ValidateAnalysis(a, guards).Success? {
      var l := ValidateAnalysis(a, guards).value.levels;
      AcceptedSignalsAreWellFormed(a, guards);
      ShortTargetIsBelow(l);
      CoveredShortAtTarget(l, quantity, guards.feeRate);
    }
  }

  lemma ShortTargetIsBelow(l: Levels)
    requires Ordered(l) && l.direction.Short?
    ensures TargetDistance(l) == l.entry - l.takeProfit
  {
  }

  lemma LongPerUnitProfit(entry: real, target: real, f: real, perUnit: real)
    requires entry > 0.0 && 0.0 < f < 1.0 && target - entry >= 2.0 * entry * f
    requires perUnit == target - entry - f * (entry + target)
    ensures perUnit >= -(f * (target - entry))
    ensures perUnit > 0.0 <==> target - entry > 2.0 * entry * f / (1.0 - f)
  {
    var gain, fees := target - entry, 2.0 * entry * f;
    assert perUnit == gain * (1.0 - f) - fees;
    DivBounds(gain, fees, 1.0 - f);
  }

  /** The profit clause of a LONG at its target, for levels that meet the guard. */
  ghost predicate LongTargetProfit(l: Levels, quantity: real, f: real)
    requires f < 1.0
  {
    var net := NetAtTarget(l, quantity, f);
    && net.Success?
    && net.value >= -(f * (l.takeProfit - l.entry)) * quantity
    && (net.value > 0.0 <==> l.takeProfit - l.entry > 2.0 * l.entry * f / (1.0 - f))
  }

  lemma CoveredLongAtTarget(l: Levels, quantity: real, f: real)
    requires l.direction.Long? && Ordered(l) && PositiveLevels(l)
    requires 0.0 < f < 1.0 && quantity > 0.0 && l.takeProfit - l.entry >= 2.0 * l.entry * f
    ensures LongTargetProfit(l, quantity, f)
  {
    DemoAccount.NetPnlIsNetOf(Long, l.entry, l.takeProfit, quantity, quantity * l.entry, f);
    var perUnit := l.takeProfit - l.entry - f * (l.entry + l.takeProfit);
    var floor := -(f * (l.takeProfit - l.entry));
    assert NetAtTarget(l, quantity, f).value == quantity * perUnit;
    LongPerUnitProfit(l.entry, l.takeProfit, f, perUnit);
    assert quantity * perUnit >= floor * quantity by { MulMono(floor, perUnit, quantity); }
    assert quantity * perUnit > 0.0 <==> perUnit > 0.0 by {
      if perUnit > 0.0 {
        MulStrict(0.0, perUnit, quantity);
      } else {
        MulMono(perUnit, 0.0, quantity);
      }
    }
  }

  /** A LONG's net profit at target is exact: it is positive precisely when the
      distance beats both fees including the fee on the gain itself, and the guard
      leaves a loss of at most that last fee. */
  lemma AcceptedLongAtTarget(a: Analysis, guards: Guards, quantity: real)
    requires 0.0 < guards.feeRate < 1.0 && quantity > 0.0 && a.decision.LongDecision?
    ensures
      var accepted := ValidateAnalysis(a, guards);
      accepted.Success? ==> LongTargetProfit(accepted.value.levels, quantity, guards.feeRate)
  {
    if ValidateAnalysis(a, guards).Success? {
      AcceptedSignalsAreWellFormed(a, guards);
      CoveredLongAtTarget(ValidateAnalysis(a, guards).value.levels, quantity, guards.feeRate);
    }
  }

  /** The guard alone does not make a LONG pay for itself: this accepted one loses. */
  lemma AcceptedLongMayLoseAtTarget()
    ensures
      var guards := Guards(0, 0.0, 0.1, 0.0, false);
      var a := Analysis(LongDecision, Some(80.0), Some(100.0), Some(90.0), Some(120.0), None, Unclear, None, None);
      && ValidateAnalysis(a, guards).Success?
      && NetAtTarget(ValidateAnalysis(a, guards).value.levels, 1.0, guards.feeRate) == Success(-2.0)
  {
  }
}
