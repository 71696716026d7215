/** The progressive tax of `mobile-app/services/taxCalculator.js` and of `calculateTax` in
    `src/App.jsx`: both walk the same table of cumulative upper limits with the same loop. */
module LimitBrackets {

  /** An upper limit of a bracket; JavaScript's `Infinity` is `Unbounded`. */
  datatype Limit = Finite(value: real) | Unbounded

  datatype Bracket = Bracket(limit: Limit, rate: real)

  /** `TAX_BRACKETS`: each bracket taxes the income between the previous limit and its own. */
  const TaxBrackets: seq<Bracket> := [
    Bracket(Finite(800000.0), 0.0),
    Bracket(Finite(3000000.0), 0.15),
    Bracket(Finite(12000000.0), 0.18),
    Bracket(Finite(25000000.0), 0.21),
    Bracket(Finite(50000000.0), 0.23),
    Bracket(Unbounded, 0.25)
  ]

  /** `income <= bracket.limit`. */
  predicate Within(income: real, limit: Limit) {
    limit.Unbounded? || income <= limit.value
  }

  function Max(a: real, b: real): real {
    if a >= b then a else b
  }

  /** The tax of a whole bracket with a finite limit, above `previousLimit`. */
  function Band(bracket: Bracket, previousLimit: real): real {
    if bracket.limit.Finite? then (bracket.limit.value - previousLimit) * bracket.rate else 0.0
  }

  /** What the loop adds from bracket `k` on, once `previousLimit` has been reached: the part of
      the income inside the bracket where it stops, and every bracket below it in full. */
  function Accrue(brackets: seq<Bracket>, k: nat, income: real, previousLimit: real): real
    decreases |brackets| - k
  {
    if k >= |brackets| then 0.0
    else if Within(income, brackets[k].limit) then Max(0.0, income - previousLimit) * brackets[k].rate
    else Band(brackets[k], previousLimit) + Accrue(brackets, k + 1, income, brackets[k].limit.value)
  }

  /** The tax the loop computes over `brackets`. */
  function TaxOver(brackets: seq<Bracket>, income: real): (r: real)
    ensures brackets == [] ==> r == 0.0
    ensures brackets != [] && Within(income, brackets[0].limit) ==> r == Max(0.0, income) * brackets[0].rate
  {
    Accrue(brackets, 0, income, 0.0)
  }

  /** The loop over the brackets with `tax` and `previousLimit`, stopping at the bracket that
      holds the income. */
  method AccrueTax(brackets: seq<Bracket>, income: real) returns (tax: real)
    ensures tax == TaxOver(brackets, income)
  {
    tax := 0.0;
    var previousLimit := 0.0;
    for k := 0 to |brackets|
      invariant tax + Accrue(brackets, k, income, previousLimit) == TaxOver(brackets, income)
    {
      var bracket := brackets[k];
      if Within(income, bracket.limit) {
        tax := tax + Max(0.0, income - previousLimit) * bracket.rate;
        break;
      } else {
        tax := tax + Band(bracket, previousLimit);
        previousLimit := bracket.limit.value;
      }
    }
  }

  // ----------------------------------------------------------------------------------------
  // The closed form, for any table of increasing limits

  /** The limit below bracket `k`: 0 for the first bracket. */
  function Floor(brackets: seq<Bracket>, k: nat): real
    requires k <= |brackets|
  {
    if k == 0 || brackets[k - 1].limit.Unbounded? then 0.0 else brackets[k - 1].limit.value
  }

  /** Positive, strictly increasing finite limits, the last one unbounded, non-negative rates. */
  predicate WellFormed(brackets: seq<Bracket>) {
    && |brackets| > 0
    && brackets[|brackets| - 1].limit.Unbounded?
    && (forall i | 0 <= i < |brackets| - 1 :: brackets[i].limit.Finite?)
    && (forall i | 0 <= i < |brackets| - 1 :: brackets[i].limit.value > Floor(brackets, i))
    && (forall i | 0 <= i < |brackets| :: brackets[i].rate >= 0.0)
  }

  /** The tax of the brackets below bracket `k`, each taxed in full. */
  function FullBands(brackets: seq<Bracket>, k: nat): real
    requires k <= |brackets|
  {
    if k == 0 then 0.0
    else FullBands(brackets, k - 1) + Band(brackets[k - 1], Floor(brackets, k - 1))
  }

  /** The limits grow, so an income above the floor of bracket `k` is above every lower limit. */
  lemma {:induction false} FloorsIncrease(brackets: seq<Bracket>, j: nat, k: nat)
    requires WellFormed(brackets) && j < k < |brackets|
    ensures brackets[j].limit.value <= Floor(brackets, k)
    decreases k - j
  {
    if j + 1 < k {
      FloorsIncrease(brackets, j + 1, k);
    }
  }

  /** From bracket `j` up to the bracket `k` that holds the income, the loop adds the full bands
      `j..k-1` and then what bracket `k` adds. */
  lemma {:induction false} AccrueFrom(brackets: seq<Bracket>, income: real, j: nat, k: nat)
    requires WellFormed(brackets) && j <= k < |brackets|
    requires Floor(brackets, k) < income
    ensures Accrue(brackets, j, income, Floor(brackets, j))
        == FullBands(brackets, k) - FullBands(brackets, j) + Accrue(brackets, k, income, Floor(brackets, k))
    decreases k - j
  {
    if j < k {
      BelowBracket(brackets, j, k);
      assert !Within(income, brackets[j].limit);
      AccrueFrom(brackets, income, j + 1, k);
    }
  }

  /** A bracket `j` below bracket `k` has a finite limit no higher than the floor of `k`, which
      is the floor of `j + 1`, and it adds its whole band to the full bands. */
  lemma BelowBracket(brackets: seq<Bracket>, j: nat, k: nat)
    requires WellFormed(brackets) && j < k < |brackets|
    ensures brackets[j].limit.Finite? && brackets[j].limit.value <= Floor(brackets, k)
    ensures Floor(brackets, j + 1) == brackets[j].limit.value
    ensures FullBands(brackets, j + 1) == FullBands(brackets, j) + Band(brackets[j], Floor(brackets, j))
  {
    FloorsIncrease(brackets, j, k);
  }

  // ----------------------------------------------------------------------------------------
  // The table of the source

  /** The tax of `TAX_BRACKETS` bracket by bracket: 0 up to 800,000, then 15%, 18%, 21%, 23% and
      25% of the income above each limit, on top of the full lower bands. */
  function Schedule(income: real): real {
    if income <= 800000.0 then 0.0
    else if income <= 3000000.0 then (income - 800000.0) * 0.15
    else if income <= 12000000.0 then 330000.0 + (income - 3000000.0) * 0.18
    else if income <= 25000000.0 then 1950000.0 + (income - 12000000.0) * 0.21
    else if income <= 50000000.0 then 4680000.0 + (income - 25000000.0) * 0.23
    else 10430000.0 + (income - 50000000.0) * 0.25
  }

  lemma TableWellFormed()
    ensures WellFormed(TaxBrackets)
  {
  }

  /** The full lower bands of the table: 2,200,000 at 15%, 9,000,000 at 18%, 13,000,000 at 21%
      and 25,000,000 at 23%. */
  lemma TableBands()
    ensures WellFormed(TaxBrackets)
    ensures FullBands(TaxBrackets, 1) == 0.0
    ensures FullBands(TaxBrackets, 2) == 330000.0
    ensures FullBands(TaxBrackets, 3) == 1950000.0
    ensures FullBands(TaxBrackets, 4) == 4680000.0
    ensures FullBands(TaxBrackets, 5) == 10430000.0
  {
    TableWellFormed();
    var b := TaxBrackets;
    assert FullBands(b, 1) == 0.0;
    assert FullBands(b, 2) == 330000.0;
    assert FullBands(b, 3) == 1950000.0;
    assert FullBands(b, 4) == 4680000.0;
  }

  /** The loop over the table computes the schedule, for every income, negative ones included. */
  lemma TaxIsSchedule(income: real)
    ensures TaxOver(TaxBrackets, income) == Schedule(income)
  {
    var b := TaxBrackets;
    TableBands();
    if income <= 800000.0 {
      assert Within(income, b[0].limit);
    } else if income <= 3000000.0 {
      AccrueFrom(b, income, 0, 1);
    } else if income <= 12000000.0 {
      AccrueFrom(b, income, 0, 2);
    } else if income <= 25000000.0 {
      AccrueFrom(b, income, 0, 3);
    } else if income <= 50000000.0 {
      AccrueFrom(b, income, 0, 4);
    } else {
      AccrueFrom(b, income, 0, 5);
    }
  }

  /** Incomes up to the first limit, including zero and negative ones, pay nothing. */
  lemma NothingUpToFirstLimit(income: real)
    requires income <= 800000.0
    ensures TaxOver(TaxBrackets, income) == 0.0
  {
    TaxIsSchedule(income);
  }

  /** An income of 3,000,000 pays 15% of the 2,200,000 above the first limit. */
  lemma ThreeMillion()
    ensures TaxOver(TaxBrackets, 3000000.0) == 330000.0
  {
    TaxIsSchedule(3000000.0);
  }

  /** The schedule never falls and never rises faster than 25% of the increase in income: it is
      non-decreasing and continuous, with no jump at any limit. */
  lemma ScheduleSlope(x: real, y: real)
    requires x <= y
    ensures 0.0 <= Schedule(y) - Schedule(x) <= (y - x) * 0.25
  {
  }

  lemma TaxMonotone(x: real, y: real)
    requires x <= y
    ensures TaxOver(TaxBrackets, x) <= TaxOver(TaxBrackets, y)
    ensures TaxOver(TaxBrackets, y) - TaxOver(TaxBrackets, x) <= (y - x) * 0.25
  {
    TaxIsSchedule(x);
    TaxIsSchedule(y);
    ScheduleSlope(x, y);
  }

  /** The tax is never negative and, on a non-negative income, never more than a quarter of it. */
  lemma TaxBounds(income: real)
    ensures TaxOver(TaxBrackets, income) >= 0.0
    ensures income >= 0.0 ==> TaxOver(TaxBrackets, income) <= income * 0.25
  {
    TaxIsSchedule(income);
    if income >= 0.0 {
      ScheduleSlope(0.0, income);
    }
  }

  /** A quantity between `lo` and `hi` times a positive base is between `lo` and `hi` per cent
      of it, times 100. */
  lemma RatioBounds(part: real, whole: real, lo: real, hi: real)
    requires whole > 0.0 && lo * whole <= part <= hi * whole
    ensures lo * 100.0 <= part / whole * 100.0 <= hi * 100.0
  {
    var q := part / whole;
    assert q * whole == part;
    assert (q - lo) * whole >= 0.0 && (hi - q) * whole >= 0.0;
  }
}
