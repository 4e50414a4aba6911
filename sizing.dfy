/**
 * The position-sizing calculation of the "Calculate" button
 * (PositionSizerPanel.calculate and PositionSizerPanel.validateValues):
 * a risk budget that is a percentage of the net liquidation value, a share
 * count that loses at most that budget if the stop-loss is hit, the value
 * of those shares, and the colour tier that compares that value with the
 * account limits the broker reported.
 */
module Sizing {
  import opened Wrappers

  /** Background of the two output fields; Default is the fields' original background. */
  datatype Tier = Red | Orange | Yellow | Green | Default

  /**
   * The three account limits the panel caches. Any negative amount, the
   * initial -1.0 or a negative value the broker reported, counts as unknown.
   */
  datatype Limits = Limits(buyingPower: real, excessLiquidity: real, totalCashValue: real)

  const Unknown: real := -1.0
  const NoLimits: Limits := Limits(Unknown, Unknown, Unknown)

  predicate Known(limit: real) { limit >= 0.0 }

  predicate Exceeds(value: real, limit: real) { Known(limit) && value > limit }

  predicate AllKnown(limits: Limits) {
    Known(limits.buyingPower) && Known(limits.excessLiquidity) && Known(limits.totalCashValue)
  }

  predicate ExceedsAny(value: real, limits: Limits) {
    Exceeds(value, limits.buyingPower) || Exceeds(value, limits.excessLiquidity) || Exceeds(value, limits.totalCashValue)
  }

  /**
   * The colour chosen by the first matching rule: buying power, then excess
   * liquidity, then total cash; green only when all three are known and
   * none is exceeded.
   */
  function ChooseTier(value: real, limits: Limits): (t: Tier)
    ensures t == Red <==> Exceeds(value, limits.buyingPower)
    ensures t == Orange <==> !Exceeds(value, limits.buyingPower) && Exceeds(value, limits.excessLiquidity)
    ensures t == Yellow <==>
      !Exceeds(value, limits.buyingPower) && !Exceeds(value, limits.excessLiquidity) &&
      Exceeds(value, limits.totalCashValue)
    ensures t == Green <==>
      AllKnown(limits) && value <= limits.buyingPower && value <= limits.excessLiquidity &&
      value <= limits.totalCashValue
    ensures t == Default <==> !AllKnown(limits) && !ExceedsAny(value, limits)
  {
    if Exceeds(value, limits.buyingPower) then Red
    else if Exceeds(value, limits.excessLiquidity) then Orange
    else if Exceeds(value, limits.totalCashValue) then Yellow
    else if AllKnown(limits) then Green
    else Default
  }

  /** How alarming a tier is; Default and Green both say "nothing known to be exceeded". */
  function Severity(t: Tier): nat {
    match t
    case Red => 3
    case Orange => 2
    case Yellow => 1
    case Green => 0
    case Default => 0
  }

  /** A larger position never gets a milder colour against the same limits. */
  lemma TierMonotone(smaller: real, larger: real, limits: Limits)
    requires smaller <= larger
    ensures Severity(ChooseTier(smaller, limits)) <= Severity(ChooseTier(larger, limits))
    ensures ChooseTier(larger, limits) == Green ==> ChooseTier(smaller, limits) == Green
  {
  }

  function Abs(x: real): real { if x < 0.0 then -x else x }

  /** Java's (int) cast of a double, without its saturation at the int range: rounds toward zero. */
  function Truncate(x: real): (n: int)
    ensures 0.0 <= x ==> 0 <= n && n as real <= x < n as real + 1.0
    ensures x <= 0.0 ==> n <= 0 && n as real - 1.0 < x <= n as real
  {
    if x >= 0.0 then x.Floor else -((-x).Floor)
  }

  /** The contract of Truncate singles out one integer: the truncation is unique. */
  lemma TruncateUnique(x: real, n: int)
    requires 0.0 <= x ==> 0 <= n && n as real <= x < n as real + 1.0
    requires x <= 0.0 ==> n <= 0 && n as real - 1.0 < x <= n as real
    ensures n == Truncate(x)
  {
  }

  /**
   * validateValues throws exactly when one of these holds; equivalently, it
   * accepts exactly a price strictly between 0 and the NLV, a risk in
   * (0, 100] and a stop-loss that differs from the price.
   */
  predicate Rejects(nlv: real, price: real, riskPercent: real, stopLoss: real)
    ensures !Rejects(nlv, price, riskPercent, stopLoss) <==>
      0.0 < price < nlv && 0.0 < riskPercent <= 100.0 && stopLoss != price
  {
    nlv <= 0.0 || price <= 0.0 || price >= nlv || riskPercent <= 0.0 || riskPercent > 100.0 || stopLoss == price
  }

  /**
   * The most the user is willing to lose on the trade: riskPercent percent
   * of the net liquidation value. For a positive NLV and a risk in (0, 100]
   * it is positive and at most the NLV; at 100 percent it is the whole NLV.
   */
  function RiskBudget(nlv: real, riskPercent: real): (budget: real)
    ensures 0.0 < nlv && 0.0 < riskPercent <= 100.0 ==> 0.0 < budget <= nlv
    ensures riskPercent == 100.0 ==> budget == nlv
    ensures budget * 100.0 == nlv * riskPercent
  {
    var fraction := riskPercent / 100.0;
    assert nlv * riskPercent / 100.0 == nlv * fraction;
    assert 0.0 < nlv && 0.0 < fraction <= 1.0 ==> nlv * fraction <= nlv * 1.0;
    nlv * riskPercent / 100.0
  }

  /** What accepted inputs guarantee: a positive budget no larger than the account, and a stop distinct from the price. */
  lemma AcceptedInputs(nlv: real, price: real, riskPercent: real, stopLoss: real)
    requires !Rejects(nlv, price, riskPercent, stopLoss)
    ensures 0.0 < RiskBudget(nlv, riskPercent) <= nlv
    ensures price - stopLoss != 0.0
    ensures 0.0 < price < nlv
  {
  }

  /** What the button shows when the inputs are accepted. */
  datatype SizingResult = SizingResult(shares: int, value: real, tier: Tier)

  /** Multiplying by a positive factor keeps the order. */
  lemma MulMonotone(a: real, b: real, d: real)
    requires d > 0.0 && a <= b
    ensures a * d <= b * d
  {
  }

  /**
   * For a positive divisor d and any n with n <= q < n + 1 where q * d == budget:
   * n * d is within budget and less than d below it.
   */
  lemma LossBetween(budget: real, q: real, n: real, d: real)
    requires d > 0.0 && q * d == budget && n <= q < n + 1.0
    ensures 0.0 <= budget - n * d < d
  {
    MulMonotone(n, q, d);
    LossBelowNext(budget, q, n, d);
  }

  lemma LossBelowNext(budget: real, q: real, n: real, d: real)
    requires d > 0.0 && q * d == budget && q < n + 1.0
    ensures budget < n * d + d
  {
    var next := n + 1.0;
    assert q * d < next * d;
    assert next * d == n * d + d;
  }

  /**
   * For a divisor d and the truncated quotient n of budget / d: the loss n * d
   * at the stop is within the budget and less than one more share away from it.
   */
  lemma TruncatedLoss(budget: real, d: real)
    requires budget > 0.0 && d != 0.0
    ensures var n := Truncate(budget / d) as real;
      0.0 <= budget - n * d < Abs(d)
  {
    var q := budget / d;
    var n := Truncate(q) as real;
    if d > 0.0 {
      assert q * d == budget;
      assert q > 0.0;
      LossBetween(budget, q, n, d);
    } else {
      // budget - n * d == (-n) * (-d) with -n <= -q < -n + 1 and (-q) * (-d) == budget
      assert (-q) * (-d) == budget;
      assert q < 0.0;
      LossBetween(budget, -q, -n, -d);
      assert (-n) * (-d) == n * d;
    }
  }

  /**
   * The sizing of calculate for accepted inputs: the share count is the
   * quotient budget / (price - stop) rounded toward zero, so the loss at the
   * stop never exceeds the budget; the value is shares times price; the tier
   * is the first matching colour rule.
   */
  function Compute(nlv: real, price: real, riskPercent: real, stopLoss: real, limits: Limits): (s: SizingResult)
    requires !Rejects(nlv, price, riskPercent, stopLoss)
    ensures s.value == s.shares as real * price
    ensures s.tier == ChooseTier(s.value, limits)
    ensures var q := RiskBudget(nlv, riskPercent) / (price - stopLoss);
      Abs(s.shares as real) <= Abs(q) < Abs(s.shares as real) + 1.0
    ensures stopLoss < price ==> s.shares >= 0
    ensures stopLoss > price ==> s.shares <= 0
    ensures var budget, d := RiskBudget(nlv, riskPercent), price - stopLoss;
      0.0 <= budget - s.shares as real * d < Abs(d)
  {
    AcceptedInputs(nlv, price, riskPercent, stopLoss);
    TruncatedLoss(RiskBudget(nlv, riskPercent), price - stopLoss);
    var shares := Truncate(RiskBudget(nlv, riskPercent) / (price - stopLoss));
    var value := shares as real * price;
    SizingResult(shares, value, ChooseTier(value, limits))
  }

  /**
   * No other share count with a loss at the stop inside the budget is a
   * bigger position: Compute's share count is the largest such count when
   * the stop is below the price, and the most negative one when it is above.
   */
  lemma SharesLargestWithinBudget(nlv: real, price: real, riskPercent: real, stopLoss: real, limits: Limits, m: int)
    requires !Rejects(nlv, price, riskPercent, stopLoss)
    requires m as real * (price - stopLoss) <= RiskBudget(nlv, riskPercent)
    ensures stopLoss < price ==> m <= Compute(nlv, price, riskPercent, stopLoss, limits).shares
    ensures stopLoss > price ==> m >= Compute(nlv, price, riskPercent, stopLoss, limits).shares
  {
    var s := Compute(nlv, price, riskPercent, stopLoss, limits);
    var budget, d := RiskBudget(nlv, riskPercent), price - stopLoss;
    if d > 0.0 {
      WithinBudgetBelowNext(budget, d, s.shares as real, m as real);
    } else {
      WithinBudgetBelowNext(budget, -d, -s.shares as real, -m as real);
      assert (-s.shares as real) * (-d) == s.shares as real * d;
      assert (-m as real) * (-d) == m as real * d;
    }
  }

  /** With a positive divisor d, a count x whose loss fits the budget is below n + 1 whenever budget < n * d + d. */
  lemma WithinBudgetBelowNext(budget: real, d: real, n: real, x: real)
    requires d > 0.0 && budget < n * d + d && x * d <= budget
    ensures x < n + 1.0
  {
    if x >= n + 1.0 {
      var next := n + 1.0;
      MulMonotone(next, x, d);
    }
  }

  /** The three failures calculate reports, in the order it meets them. */
  datatype CalcError =
    | MissingData    // net liquidation value or current price unreadable
    | BadRiskOrStop  // risk or stop-loss unreadable
    | InvalidInput   // validateValues rejected the numbers

  /**
   * The whole of calculate on the four field values as parsed (None when a
   * field does not hold a number) and the cached limits.
   */
  function Size(nlv: Option<real>, price: Option<real>, riskPercent: Option<real>, stopLoss: Option<real>, limits: Limits)
    : (r: Result<SizingResult, CalcError>)
    ensures r == Failure(MissingData) <==> nlv.None? || price.None?
    ensures r == Failure(BadRiskOrStop) <==> nlv.Some? && price.Some? && (riskPercent.None? || stopLoss.None?)
    ensures r == Failure(InvalidInput) <==>
      nlv.Some? && price.Some? && riskPercent.Some? && stopLoss.Some? &&
      Rejects(nlv.value, price.value, riskPercent.value, stopLoss.value)
    ensures r.Success? ==>
      nlv.Some? && price.Some? && riskPercent.Some? && stopLoss.Some? &&
      !Rejects(nlv.value, price.value, riskPercent.value, stopLoss.value) &&
      r.value == Compute(nlv.value, price.value, riskPercent.value, stopLoss.value, limits)
  {
    if nlv.None? || price.None? then Failure(MissingData)
    else if riskPercent.None? || stopLoss.None? then Failure(BadRiskOrStop)
    else if Rejects(nlv.value, price.value, riskPercent.value, stopLoss.value) then Failure(InvalidInput)
    else Success(Compute(nlv.value, price.value, riskPercent.value, stopLoss.value, limits))
  }

  /** Half a percent of 10000 at a one-dollar stop is 50 shares worth 2500. */
  lemma SizingExample()
    ensures Compute(10000.0, 50.0, 0.5, 49.0, NoLimits) == SizingResult(50, 2500.0, Default)
    ensures Compute(10000.0, 50.0, 0.5, 49.0, Limits(2000.0, 9000.0, 9000.0)).tier == Red
  {
  }

  /** A stop above the price is accepted and gives a negative count, which no known limit flags. */
  lemma StopAboveEntryExample()
    ensures Compute(10000.0, 50.0, 1.0, 51.0, Limits(0.0, 0.0, 0.0)) == SizingResult(-100, -5000.0, Green)
  {
  }
}
