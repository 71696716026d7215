/** `mobile-app/services/taxCalculator.js`: the tax of an annual income under `TAX_BRACKETS`, and
    the figures derived from it. */
module ServiceTax {
  import opened LimitBrackets

  /** `calculateTax`: nothing on an income that is not positive, otherwise the bracket loop. */
  function Tax(income: real): (r: real)
    ensures r >= 0.0
    ensures income >= 0.0 ==> r <= income * 0.25
  {
    TaxBounds(income);
    if income <= 0.0 then 0.0 else TaxOver(TaxBrackets, income)
  }

  method CalculateTax(income: real) returns (tax: real)
    ensures tax == Tax(income)
  {
    if income <= 0.0 {
      return 0.0;
    }
    tax := AccrueTax(TaxBrackets, income);
  }

  /** The early return changes nothing: the first bracket already taxes any income up to
      800,000 at 0%, so the result is the schedule for every income. */
  lemma GuardIsRedundant(income: real)
    ensures Tax(income) == TaxOver(TaxBrackets, income) == Schedule(income)
  {
    TaxIsSchedule(income);
    if income <= 0.0 {
      NothingUpToFirstLimit(income);
    }
  }

  /** `calculateNetIncome`: the gross income less its tax. At least three quarters of a
      non-negative income is kept. */
  function NetIncome(grossIncome: real): (r: real)
    ensures grossIncome >= 0.0 ==> grossIncome * 0.75 <= r <= grossIncome
  {
    TaxBounds(grossIncome);
    GuardIsRedundant(grossIncome);
    grossIncome - Tax(grossIncome)
  }

  /** Earning more never leaves less after tax: the marginal rate is at most 25%. */
  lemma NetIncomeMonotone(x: real, y: real)
    requires x <= y
    ensures NetIncome(x) <= NetIncome(y)
    ensures NetIncome(y) - NetIncome(x) >= (y - x) * 0.75
  {
    GuardIsRedundant(x);
    GuardIsRedundant(y);
    TaxMonotone(x, y);
  }

  /** `calculateMonthlyTax`: a twelfth of the annual tax, never negative and, for a
      non-negative income, at most a quarter of the monthly income. */
  function MonthlyTax(annualIncome: real): (r: real)
    ensures r >= 0.0
    ensures r * 12.0 == Tax(annualIncome)
    ensures annualIncome >= 0.0 ==> r <= annualIncome / 12.0 * 0.25
  {
    TaxBounds(annualIncome);
    GuardIsRedundant(annualIncome);
    Tax(annualIncome) / 12.0
  }

  /** `getEffectiveRate`: the tax as a percentage of the income, 0 for an income that is not
      positive; between 0 and 25, and 0 exactly up to the first limit of 800,000. */
  function EffectiveRate(income: real): (r: real)
    ensures 0.0 <= r <= 25.0
    ensures r == 0.0 <==> income <= 800000.0
  {
    if income <= 0.0 then 0.0
    else
      TaxBounds(income);
      GuardIsRedundant(income);
      RatioBounds(Tax(income), income, 0.0, 0.25);
      Tax(income) / income * 100.0
  }
}
