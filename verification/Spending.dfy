/** How much error budget an error ratio has spent (internal/slo/budget.go).

    The operator computes with float64. Here a float is a real, an infinity or not-a-number, and
    every float operation applies rnd, a rounding of the exact result. The identity gives exact
    arithmetic; the range and order results hold for every monotone rounding that fixes 0 and 1. */
module Spending {
  import opened Budget
  import opened Outcomes

  datatype Float = NaN | Infinite | Finite(value: real)

  /** Comparisons with a number: false for NaN. The infinities that arise here are only tested for
      being unusable, so an infinity also compares false. */
  predicate AtMost(f: Float, x: real) {
    f.Finite? && f.value <= x
  }

  predicate Below(f: Float, x: real) {
    f.Finite? && f.value < x
  }

  datatype BudgetUse = BudgetUse(consumed: Float, remaining: Float)

  datatype SpendError = NoBudget | NotANumber

  function Value(r: Rat): real
    requires r.den > 0
  {
    r.num as real / r.den as real
  }

  function Max(x: real, y: real): real {
    if x < y then y else x
  }

  function Min(x: real, y: real): real {
    if x < y then x else y
  }

  /** A budget too small for a float rounds to zero, and dividing by it does not fail. */
  function Divide(x: real, y: real, rnd: real -> real): Float {
    if y != 0.0 then Finite(rnd(x / y)) else if x == 0.0 then NaN else Infinite
  }

  function BurnRate(ratio: Float, budget: Option<Rat>, rnd: real -> real): Result<Float, SpendError>
    requires budget.Some? ==> budget.value.den > 0
  {
    if budget.None? || budget.value.num <= 0 then Err(NoBudget)
    else if !ratio.Finite? then Err(NotANumber)
    else Ok(Divide(Max(ratio.value, 0.0), rnd(Value(budget.value)), rnd))
  }

  /** The share of the budget left at a burn rate. */
  function Remaining(rate: Float, rnd: real -> real): Float {
    match rate
    case NaN => NaN
    case Infinite => Finite(0.0)
    case Finite(r) => Finite(Min(Max(rnd(1.0 - r), 0.0), 1.0))
  }

  function SpendBudget(ratio: Float, budget: Option<Rat>, rnd: real -> real): Result<BudgetUse, SpendError>
    requires budget.Some? ==> budget.value.den > 0
  {
    match BurnRate(ratio, budget, rnd)
    case Err(e) => Err(e)
    case Ok(rate) => Ok(BudgetUse(rate, Remaining(rate, rnd)))
  }

  ghost predicate Rounding(rnd: real -> real) {
    && rnd(0.0) == 0.0 && rnd(1.0) == 1.0
    && forall x, y :: x <= y ==> rnd(x) <= rnd(y)
  }

  function Exactly(x: real): real {
    x
  }

  lemma ValuePositive(b: Rat)
    requires b.den > 0 && b.num > 0
    ensures Value(b) > 0.0
  {}

  lemma QuotientOrder(x: real, y: real, b: real)
    requires b > 0.0 && x <= y
    ensures x / b <= y / b
  {}

  lemma ProductSign(x: real, y: real)
    requires y > 0.0
    ensures x * y > 0.0 <==> x > 0.0
    ensures x * y < 0.0 <==> x < 0.0
  {}

  /** x/y compares with k as x does with k*y. */
  lemma QuotientBound(x: real, y: real, k: real)
    requires y > 0.0
    ensures x / y > k <==> x > k * y
    ensures x / y < k <==> x < k * y
  {
    var q := x / y;
    assert q * y == x;
    assert (q - k) * y == x - k * y;
    ProductSign(q - k, y);
  }

  /** Under any rounding that keeps the budget positive, a finite error ratio always yields a share
      between 0 and 1, and a higher ratio never leaves more of the budget. */
  lemma RemainingOrdered(low: real, high: real, b: Rat, rnd: real -> real)
    requires b.den > 0 && b.num > 0 && Rounding(rnd) && rnd(Value(b)) > 0.0 && low <= high
    ensures SpendBudget(Finite(low), Some(b), rnd).Ok? && SpendBudget(Finite(high), Some(b), rnd).Ok?
    ensures var l := SpendBudget(Finite(low), Some(b), rnd).value.remaining;
            var h := SpendBudget(Finite(high), Some(b), rnd).value.remaining;
            l.Finite? && h.Finite? && 0.0 <= h.value <= l.value <= 1.0
  {
    var d := rnd(Value(b));
    QuotientOrder(Max(low, 0.0), Max(high, 0.0), d);
    var l, h := rnd(Max(low, 0.0) / d), rnd(Max(high, 0.0) / d);
    assert l <= h;
    assert rnd(1.0 - h) <= rnd(1.0 - l);
  }

  /** A ratio at or above the rounded budget leaves nothing, whatever the rounding. */
  lemma SpentIsZero(ratio: real, b: Rat, rnd: real -> real)
    requires b.den > 0 && b.num > 0 && Rounding(rnd) && rnd(Value(b)) > 0.0
    requires ratio >= rnd(Value(b))
    ensures SpendBudget(Finite(ratio), Some(b), rnd).Ok?
    ensures AtMost(SpendBudget(Finite(ratio), Some(b), rnd).value.remaining, 0.0)
  {
    var d := rnd(Value(b));
    QuotientOrder(d, ratio, d);
    QuotientBound(d, d, 1.0);
    assert rnd(1.0) <= rnd(ratio / d);
    assert rnd(1.0 - rnd(ratio / d)) <= rnd(0.0);
  }

  /** The share is NaN exactly when the budget rounds to zero and no error was seen. */
  lemma RemainingNaN(ratio: real, b: Rat, rnd: real -> real)
    requires b.den > 0 && b.num > 0
    ensures SpendBudget(Finite(ratio), Some(b), rnd).Ok?
    ensures SpendBudget(Finite(ratio), Some(b), rnd).value.remaining.NaN? <==> rnd(Value(b)) == 0.0 && ratio <= 0.0
  {}

  /** In exact arithmetic the freeze bounds are error ratios: nothing is left from the budget up, and
      less than 5% is left above 95% of the budget. */
  lemma ExactBounds(ratio: real, b: Rat)
    requires b.den > 0 && b.num > 0
    ensures SpendBudget(Finite(ratio), Some(b), Exactly).Ok?
    ensures var left := SpendBudget(Finite(ratio), Some(b), Exactly).value.remaining;
            && (AtMost(left, 0.0) <==> Max(ratio, 0.0) >= Value(b))
            && (Below(left, 0.05) <==> Max(ratio, 0.0) > 0.95 * Value(b))
  {
    ValuePositive(b);
    QuotientBound(Max(ratio, 0.0), Value(b), 1.0);
    QuotientBound(Max(ratio, 0.0), Value(b), 0.95);
  }

  /** In exact arithmetic spending is conserved: the share spent is the errors' share of the budget, and with
      the share left it makes up the whole, until more than the whole is spent and nothing is left. */
  lemma SpentAndLeft(ratio: real, b: Rat)
    requires b.den > 0 && b.num > 0
    ensures SpendBudget(Finite(ratio), Some(b), Exactly).Ok?
    ensures var use := SpendBudget(Finite(ratio), Some(b), Exactly).value;
            && use.consumed.Finite? && use.remaining.Finite?
            && use.consumed.value * Value(b) == Max(ratio, 0.0)
            && (Max(ratio, 0.0) <= Value(b) ==> use.consumed.value + use.remaining.value == 1.0)
            && (Max(ratio, 0.0) > Value(b) ==> use.remaining.value == 0.0)
  {
    ValuePositive(b);
    QuotientBound(Max(ratio, 0.0), Value(b), 1.0);
    QuotientBound(Max(ratio, 0.0), Value(b), 0.0);
    assert (Max(ratio, 0.0) / Value(b)) * Value(b) == Max(ratio, 0.0);
    hide Value;
  }

  /** The threshold the 1x alert prints is the budget itself. */
  lemma OneTimesThreshold(objective: string)
    requires ErrorBudget(objective).Ok?
    ensures PlainDecimal("1")
    ensures var b := ErrorBudget(objective).value;
            b.den > 0 && PlainDecimal(Threshold("1", b)) && SetString(Threshold("1", b)) == b
  {
    ErrorBudgetExact(objective);
    var b := ErrorBudget(objective).value;
    assert PlainDecimal("1") && Numerator("1") == 1 && SetString("1") == Rat(1, 1) by {
      WholeDecimal(1);
    }
    NormUnique(b, b.num, b.den);
    assert Mul(Rat(1, 1), b) == b;
    var k := FiniteBudget(objective);
    UnsignedDecimalExact(b);
  }

  lemma WholeDecimal(n: nat)
    requires n < 10
    ensures var s := Numbers.Utoa(n);
            PlainDecimal(s) && Numerator(s) == n && FractionDigits(s) == 0 && SetString(s) == Rat(n, 1)
    ensures Numbers.Utoa(1) == "1"
  {
    Reads(Numbers.Utoa(n), "");
    Numbers.DigitsValueUtoa(n);
    NormUnique(Rat(n, 1), n, 1);
  }

  lemma FiniteBudget(objective: string) returns (k: nat)
    requires ErrorBudget(objective).Ok?
    ensures exists m: int :: Expands(ErrorBudget(objective).value, k, m)
  {
    ErrorBudgetExact(objective);
    var f := FractionDigits(objective);
    k := 2 + f;
    TensProduct(0, f);
    assert Numbers.Pow(10, 0) == 1;
    assert Expands(ErrorBudget(objective).value, k, 100 * Numbers.Pow(10, f) - Numerator(objective));
  }
}
