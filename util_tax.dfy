/** `mobile-app/utils/taxCalculator.js`: the tax of an income under brackets given by their
    width, and the summary of a list of transactions. */
module UtilTax {
  import opened Wrappers
  import opened Decimal
  import LimitBrackets

  type Limit = LimitBrackets.Limit

  /** A bracket from `min` to `max`, taxed at `rate`. */
  datatype Bracket = Bracket(min: real, max: Limit, rate: real)

  const TaxBrackets: seq<Bracket> := [
    Bracket(0.0, LimitBrackets.Finite(300000.0), 0.07),
    Bracket(300000.0, LimitBrackets.Finite(600000.0), 0.11),
    Bracket(600000.0, LimitBrackets.Finite(1100000.0), 0.15),
    Bracket(1100000.0, LimitBrackets.Finite(1600000.0), 0.19),
    Bracket(1600000.0, LimitBrackets.Finite(3200000.0), 0.21),
    Bracket(3200000.0, LimitBrackets.Unbounded, 0.24)
  ]

  /** `Math.min(remainingIncome, bracket.max - bracket.min)`; an unbounded bracket takes all. */
  function Taxable(remaining: real, bracket: Bracket): (r: real)
    ensures r <= remaining
    ensures remaining >= 0.0 && Wide(bracket) ==> r >= 0.0
    ensures bracket.max.Unbounded? ==> r == remaining
  {
    if bracket.max.Unbounded? || remaining <= bracket.max.value - bracket.min then remaining
    else bracket.max.value - bracket.min
  }

  /** A bracket whose upper end is not below its lower end. */
  predicate Wide(bracket: Bracket) {
    bracket.max.Finite? ==> bracket.max.value >= bracket.min
  }

  /** Every bracket of the table is wide and the last one has no upper end. */
  lemma TableShape()
    ensures forall i | 0 <= i < |TaxBrackets| :: Wide(TaxBrackets[i])
    ensures |TaxBrackets| == 6 && TaxBrackets[5].max.Unbounded?
  {
  }

  /** The tax the loop adds from bracket `k` on, with `remaining` income still untaxed. */
  function Consume(brackets: seq<Bracket>, k: nat, remaining: real): real
    decreases |brackets| - k
  {
    if k >= |brackets| || remaining <= 0.0 then 0.0
    else
      var share := Taxable(remaining, brackets[k]);
      share * brackets[k].rate + Consume(brackets, k + 1, remaining - share)
  }

  /** The income the loop taxes from bracket `k` on. */
  function Taxed(brackets: seq<Bracket>, k: nat, remaining: real): real
    decreases |brackets| - k
  {
    if k >= |brackets| || remaining <= 0.0 then 0.0
    else
      var share := Taxable(remaining, brackets[k]);
      share + Taxed(brackets, k + 1, remaining - share)
  }

  /** `calculateTax`. */
  function Tax(income: real): (r: real)
    ensures income <= 0.0 ==> r == 0.0
    ensures 0.0 < income <= 300000.0 ==> r == income * 0.07
  {
    FirstBracketShare(income);
    if income <= 0.0 then 0.0 else Consume(TaxBrackets, 0, income)
  }

  /** Up to 300,000 the whole income falls in the first bracket. */
  lemma FirstBracketShare(income: real)
    ensures 0.0 < income <= 300000.0 ==> Consume(TaxBrackets, 0, income) == income * 0.07
  {
    if 0.0 < income <= 300000.0 {
      LastShare(TaxBrackets, 0, income, 0.07);
    }
  }

  method CalculateTax(income: real) returns (tax: real)
    ensures tax == Tax(income)
  {
    if income <= 0.0 {
      return 0.0;
    }
    TableShape();
    tax := TakeShares(TaxBrackets, income);
  }

  /** The loop that takes each bracket's share of the remaining income until none is left; the
      remaining income never goes below zero. */
  method TakeShares(brackets: seq<Bracket>, income: real) returns (tax: real)
    requires income > 0.0
    requires forall i | 0 <= i < |brackets| :: Wide(brackets[i])
    ensures tax == Consume(brackets, 0, income)
  {
    tax := 0.0;
    var remaining := income;
    for k := 0 to |brackets|
      invariant remaining >= 0.0
      invariant tax + Consume(brackets, k, remaining) == Consume(brackets, 0, income)
    {
      if remaining <= 0.0 {
        break;
      }
      var share, portion := TakeShare(brackets, k, remaining);
      tax := tax + portion;
      remaining := remaining - share;
    }
  }

  /** The body of the loop: bracket `k` takes its share of the remaining income and adds that
      share at its rate; the tax from `k` on is this portion plus the tax from `k + 1` on. */
  method TakeShare(brackets: seq<Bracket>, k: nat, remaining: real) returns (share: real, portion: real)
    requires k < |brackets| && remaining > 0.0 && Wide(brackets[k])
    ensures 0.0 <= share <= remaining
    ensures Consume(brackets, k, remaining) == portion + Consume(brackets, k + 1, remaining - share)
  {
    var bracket := brackets[k];
    share := Taxable(remaining, bracket);
    portion := share * bracket.rate;
    ShareStep(brackets, k, remaining, share, bracket.rate);
  }

  /** One turn of the loop: bracket `k` takes its share of a positive remaining income. */
  lemma ShareStep(brackets: seq<Bracket>, k: nat, remaining: real, share: real, rate: real)
    requires k < |brackets| && remaining > 0.0
    requires share == Taxable(remaining, brackets[k]) && rate == brackets[k].rate
    ensures Consume(brackets, k, remaining) == share * rate + Consume(brackets, k + 1, remaining - share)
    ensures Taxed(brackets, k, remaining) == share + Taxed(brackets, k + 1, remaining - share)
  {
  }

  /** Every bit of a positive income is taxed in some bracket: the last one has no upper end. */
  lemma AllIncomeTaxed(income: real)
    requires income > 0.0
    ensures Taxed(TaxBrackets, 0, income) == income
  {
    TableShape();
    TaxedFrom(TaxBrackets, 0, income);
  }

  /** From any bracket on, brackets that end with an unbounded one tax all the remaining income. */
  lemma {:induction false} TaxedFrom(brackets: seq<Bracket>, k: nat, remaining: real)
    requires forall i | 0 <= i < |brackets| :: Wide(brackets[i])
    requires |brackets| > 0 && brackets[|brackets| - 1].max.Unbounded?
    requires k < |brackets| && remaining >= 0.0
    ensures Taxed(brackets, k, remaining) == remaining
    decreases |brackets| - k
  {
    if remaining > 0.0 {
      var share := Taxable(remaining, brackets[k]);
      assert Taxed(brackets, k, remaining) == share + Taxed(brackets, k + 1, remaining - share);
      if k + 1 < |brackets| {
        TaxedFrom(brackets, k + 1, remaining - share);
      } else {
        assert share == remaining;
      }
    }
  }

  /** The tax bracket by bracket: 7% of the first 300,000, 11% of the next 300,000, 15% of the
      next 500,000, 19% of the next 500,000, 21% of the next 1,600,000 and 24% above 3,200,000. */
  function Schedule(income: real): real {
    if income <= 0.0 then 0.0
    else if income <= 300000.0 then income * 0.07
    else if income <= 600000.0 then 21000.0 + (income - 300000.0) * 0.11
    else if income <= 1100000.0 then 54000.0 + (income - 600000.0) * 0.15
    else if income <= 1600000.0 then 129000.0 + (income - 1100000.0) * 0.19
    else if income <= 3200000.0 then 224000.0 + (income - 1600000.0) * 0.21
    else 560000.0 + (income - 3200000.0) * 0.24
  }

  /** The tax from bracket `k` on, of a remaining income that fits in bracket `k`. */
  lemma LastShare(brackets: seq<Bracket>, k: nat, remaining: real, rate: real)
    requires k < |brackets| && remaining > 0.0 && rate == brackets[k].rate
    requires brackets[k].max.Unbounded? || remaining <= brackets[k].max.value - brackets[k].min
    ensures Consume(brackets, k, remaining) == remaining * rate
  {
    assert Consume(brackets, k + 1, 0.0) == 0.0;
  }

  /** The tax from bracket `k` on, of a remaining income that overflows bracket `k`. */
  lemma FullShare(brackets: seq<Bracket>, k: nat, remaining: real, rest: real)
    requires k < |brackets| && brackets[k].max.Finite? && brackets[k].max.value >= brackets[k].min
    requires remaining > brackets[k].max.value - brackets[k].min
    requires rest == remaining - (brackets[k].max.value - brackets[k].min)
    ensures Consume(brackets, k, remaining) == BandTax(brackets[k]) + Consume(brackets, k + 1, rest)
  {
  }

  /** The tax of a whole bracket with an upper end. */
  function BandTax(bracket: Bracket): real
    requires bracket.max.Finite?
  {
    (bracket.max.value - bracket.min) * bracket.rate
  }

  /** Each bracket but the last ends above its start, where the next one starts. */
  predicate Contiguous(brackets: seq<Bracket>) {
    forall i | 0 <= i < |brackets| - 1 ::
      brackets[i].max.Finite? && brackets[i].max.value > brackets[i].min
      && brackets[i + 1].min == brackets[i].max.value
  }

  /** The tax of the brackets below `k`, each taxed in full. */
  function FullTax(brackets: seq<Bracket>, k: nat): real
    requires Contiguous(brackets) && k < |brackets|
  {
    if k == 0 then 0.0 else FullTax(brackets, k - 1) + BandTax(brackets[k - 1])
  }

  /** The brackets of a contiguous table start ever higher. */
  lemma {:induction false} StartsIncrease(brackets: seq<Bracket>, j: nat, k: nat)
    requires Contiguous(brackets) && j < k < |brackets|
    ensures brackets[j].max.value <= brackets[k].min
    decreases k - j
  {
    if j + 1 < k {
      StartsIncrease(brackets, j + 1, k);
    }
  }

  /** An income above the start of bracket `k` fills every bracket from `j` up to `k` and is
      taxed from `k` on for what is left above the start of `k`. */
  lemma {:induction false} ConsumeFrom(brackets: seq<Bracket>, x: real, j: nat, k: nat)
    requires Contiguous(brackets) && j <= k < |brackets| && x > brackets[k].min
    ensures Consume(brackets, j, x - brackets[j].min)
      == FullTax(brackets, k) - FullTax(brackets, j) + Consume(brackets, k, x - brackets[k].min)
    decreases k - j
  {
    if j < k {
      StartsIncrease(brackets, j, k);
      FullShare(brackets, j, x - brackets[j].min, x - brackets[j + 1].min);
      ConsumeFrom(brackets, x, j + 1, k);
    }
  }

  /** The table is contiguous, and these are its full lower brackets. */
  lemma TableFullTax()
    ensures Contiguous(TaxBrackets)
    ensures FullTax(TaxBrackets, 1) == 21000.0
    ensures FullTax(TaxBrackets, 2) == 54000.0
    ensures FullTax(TaxBrackets, 3) == 129000.0
    ensures FullTax(TaxBrackets, 4) == 224000.0
    ensures FullTax(TaxBrackets, 5) == 560000.0
  {
    var b := TaxBrackets;
    assert Contiguous(b);
    assert FullTax(b, 1) == 21000.0;
    assert FullTax(b, 2) == 54000.0;
    assert FullTax(b, 3) == 129000.0;
    assert FullTax(b, 4) == 224000.0;
  }

  /** An income above the start of bracket `k` of the table pays the full brackets below `k`
      and then the tax from `k` on. */
  lemma FromBracket(x: real, k: nat, start: real, base: real)
    requires k < 6 && start == TaxBrackets[k].min && x > start
    requires Contiguous(TaxBrackets) && base == FullTax(TaxBrackets, k)
    ensures Consume(TaxBrackets, 0, x) == base + Consume(TaxBrackets, k, x - start)
  {
    ConsumeFrom(TaxBrackets, x, 0, k);
  }

  /** The loop computes the schedule. */
  lemma TaxIsSchedule(income: real)
    ensures Tax(income) == Schedule(income)
  {
    TableFullTax();
    var b := TaxBrackets;
    if income <= 0.0 {
    } else if income <= 300000.0 {
      LastShare(b, 0, income, 0.07);
    } else if income <= 600000.0 {
      FromBracket(income, 1, 300000.0, 21000.0);
      LastShare(b, 1, income - 300000.0, 0.11);
    } else if income <= 1100000.0 {
      FromBracket(income, 2, 600000.0, 54000.0);
      LastShare(b, 2, income - 600000.0, 0.15);
    } else if income <= 1600000.0 {
      FromBracket(income, 3, 1100000.0, 129000.0);
      LastShare(b, 3, income - 1100000.0, 0.19);
    } else if income <= 3200000.0 {
      FromBracket(income, 4, 1600000.0, 224000.0);
      LastShare(b, 4, income - 1600000.0, 0.21);
    } else {
      FromBracket(income, 5, 3200000.0, 560000.0);
      LastShare(b, 5, income - 3200000.0, 0.24);
    }
  }

  /** An income of 300,000 fills the first bracket: 21,000. */
  lemma FirstBracketFull()
    ensures Tax(300000.0) == 21000.0
  {
    TaxIsSchedule(300000.0);
  }

  /** A positive income pays between 7% and 24% of itself. */
  lemma TaxBounds(income: real)
    requires income > 0.0
    ensures income * 0.07 <= Tax(income) <= income * 0.24
  {
    TaxIsSchedule(income);
  }

  /** More income never means less tax, and each extra unit is taxed at 7% to 24%. */
  lemma TaxMonotone(x: real, y: real)
    requires 0.0 <= x <= y
    ensures (y - x) * 0.07 <= Tax(y) - Tax(x) <= (y - x) * 0.24
  {
    TaxIsSchedule(x);
    TaxIsSchedule(y);
    ScheduleSlope(x, y);
  }

  /** Between two non-negative incomes the schedule rises by 7% to 24% of the difference. */
  lemma ScheduleSlope(x: real, y: real)
    requires 0.0 <= x <= y
    ensures (y - x) * 0.07 <= Schedule(y) - Schedule(x) <= (y - x) * 0.24
  {
  }

  // ----------------------------------------------------------------------------------------
  // calculateTaxSummary

  /** `transactions.reduce((sum, t) => sum + parseFloat(t.amount), 0)`: one amount that does not
      parse makes the whole sum NaN, written `None`. */
  function TotalIncome(amounts: seq<string>): (r: Option<real>)
    ensures r.Some? <==> forall i | 0 <= i < |amounts| :: ParseFloat(amounts[i]).Some?
  {
    var parsed := seq(|amounts|, i requires 0 <= i < |amounts| => ParseFloat(amounts[i]));
    assert forall i | 0 <= i < |amounts| :: parsed[i] == ParseFloat(amounts[i]);
    Sum(parsed)
  }

  /** The left-to-right sum of parsed numbers, NaN as soon as one of them is. */
  function Sum(values: seq<Option<real>>): (r: Option<real>)
    ensures r.Some? <==> forall i | 0 <= i < |values| :: values[i].Some?
  {
    if values == [] then Some(0.0)
    else
      var init := Sum(values[..|values| - 1]);
      var last := values[|values| - 1];
      if init.Some? && last.Some? then Some(init.value + last.value) else None
  }

  /** `calculateTax` of a NaN income is NaN: `NaN <= 0` is false and every share is NaN. */
  function TaxOfTotal(total: Option<real>): (r: Option<real>)
    ensures r.None? <==> total.None?
    ensures total.Some? && total.value > 0.0 ==> total.value * 0.07 <= r.value <= total.value * 0.24
  {
    match total
    case None => None
    case Some(income) =>
      if income > 0.0 then TaxBounds(income); Some(Tax(income)) else Some(Tax(income))
  }

  /** `(estimatedTax / annualIncome) * 100` for a positive income: between 7 and 24. */
  function RateOf(income: real): (r: real)
    requires income > 0.0
    ensures 7.0 <= r <= 24.0
  {
    TaxBounds(income);
    LimitBrackets.RatioBounds(Tax(income), income, 0.07, 0.24);
    Tax(income) / income * 100.0
  }

  datatype Summary = Summary(
    totalIncome: Option<real>,
    annualIncome: Option<real>,
    estimatedTax: Option<real>,
    netIncome: Option<real>,
    effectiveRate: real)

  /** `calculateTaxSummary`: the annual income is the total itself; the effective rate is 0 unless
      the total is a positive number, and otherwise lies between 7% and 24%. */
  function TaxSummary(amounts: seq<string>): (r: Summary)
    ensures r.annualIncome == r.totalIncome == TotalIncome(amounts)
    ensures r.estimatedTax.Some? <==> r.totalIncome.Some?
    ensures r.netIncome.Some? <==> r.totalIncome.Some?
    ensures r.netIncome.Some? ==> r.netIncome.value == r.totalIncome.value - r.estimatedTax.value
    ensures r.totalIncome.Some? && r.totalIncome.value > 0.0 ==> 7.0 <= r.effectiveRate <= 24.0
    ensures (r.totalIncome.None? || r.totalIncome.value <= 0.0) ==> r.effectiveRate == 0.0
  {
    var total := TotalIncome(amounts);
    var tax := TaxOfTotal(total);
    var net := if total.Some? then Some(total.value - tax.value) else None;
    var rate := if total.Some? && total.value > 0.0 then RateOf(total.value) else 0.0;
    Summary(total, total, tax, net, rate)
  }

  /** Appending a transaction whose amount does not parse turns the whole summary to NaN, its
      rate to 0. */
  lemma {:induction false} UnparsableAmountPoisons(amounts: seq<string>, bad: string)
    requires ParseFloat(bad).None?
    ensures TaxSummary(amounts + [bad]).totalIncome.None?
    ensures TaxSummary(amounts + [bad]).effectiveRate == 0.0
  {
    assert (amounts + [bad])[|amounts|] == bad;
  }
}
