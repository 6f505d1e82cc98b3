/**
  What Worksheet 1A withholds, told without its rows: a progressive tax on the adjusted annual wage at the
  marginal rates of page 12 of IRS Publication 15-T (2026), and exactly who has nothing withheld.
*/
module PercentageMethod {
  import opened Prelude
  import opened Contracts
  import opened Rounding
  import opened TaxTables2026
  import opened FederalWithholding

  /** Marginal rates in percent, from the zero bracket up. */
  const RATES: seq<int> := [0, 10, 12, 22, 24, 32, 35, 37]

  /** Where each bracket starts, in whole dollars of adjusted annual wage. */
  function Starts(status: FilingStatus, checkbox: bool): (starts: seq<int>)
    ensures |starts| == 8
  {
    match status
    case MarriedJointly =>
      if checkbox then [0, 16100, 28500, 66500, 121800, 217875, 272325, 400450]
      else [0, 19300, 44100, 120100, 230700, 422850, 531750, 788000]
    case _ =>
      if checkbox then [0, 8050, 14250, 33250, 60900, 108938, 136163, 328350]
      else [0, 7500, 19900, 57900, 113200, 209275, 263725, 648100]
  }

  /** The part of the wage that lies in one bracket. */
  function Part(wage: nat, from: int, to: Option<int>): (part: nat) {
    var top := if to.Some? && to.value < wage then to.value else wage;
    if top < from then 0 else top - from
  }

  /** The tax of the first n brackets: each rate on the part of the wage in its bracket, in hundredths of a cent. */
  function Marginal(starts: seq<int>, wage: nat, n: nat): int
    requires n <= |starts| == 8
  {
    if n == 0 then 0
    else
      var to := if n < 8 then Some(100 * starts[n]) else None;
      Marginal(starts, wage, n - 1) + RATES[n - 1] * Part(wage, 100 * starts[n - 1], to)
  }

  /** The printed bases of the Single and separate Step 2 schedule are 12 cents short from $108,938 on, and 6 over from $328,350. */
  function PrintedJumps(status: FilingStatus, checkbox: bool, wage: nat): int {
    if !checkbox || status.MarriedJointly? || wage < 10893800 then 0
    else if wage < 32835000 then -1200
    else 600
  }

  /** The unrounded annual tax, in hundredths of a cent. */
  function AnnualTax(status: FilingStatus, checkbox: bool, wage: nat): int {
    Marginal(Starts(status, checkbox), wage, 8) + PrintedJumps(status, checkbox, wage)
  }

  /** The adjusted annual wage: the year's income less the W-4 deductions and, without the checkbox, $12,900 or $8,600. */
  function TaxableYear(wages: real, p: PayPeriods, w4: W4): nat {
    var income := Money(Money(wages * p as real) as real + w4.otherIncome);
    var allowance := if w4.checkbox then 0.0 else if w4.status.MarriedJointly? then 1290000.0 else 860000.0;
    var exempt := Money(w4.deductions + allowance);
    if income < exempt then 0 else income - exempt
  }

  // ---------------------------------------------------------------------------------------------
  // A bracket table is a progressive tax with jumps
  // ---------------------------------------------------------------------------------------------

  function BelowRow(rows: seq<BracketRow>, wage: nat, k: nat): int
    requires k < |rows|
  {
    if k == 0 then 0
    else BelowRow(rows, wage, k - 1) + rows[k - 1].pct * Part(wage, rows[k - 1].lower, Some(rows[k].lower))
  }

  function JumpsReached(rows: seq<BracketRow>, wage: nat, k: nat): int
    requires k < |rows|
  {
    if k == 0 then 0
    else JumpsReached(rows, wage, k - 1) + if rows[k].lower <= wage then Jump(rows, k) else 0
  }

  /** On the first k + 1 rows of any well-formed table: full parts below row k, the rest of the wage on it, and the jumps reached. */
  lemma {:induction false} TableIsProgressive(rows: seq<BracketRow>, wage: nat, k: nat)
    requires WellFormed(rows) && k < |rows|
    ensures FederalWithholding.Exact(wage, rows, k + 1) ==
            BelowRow(rows, wage, k) + rows[k].pct * Part(wage, rows[k].lower, None) + JumpsReached(rows, wage, k)
  {
    hide FederalWithholding.Exact, Part;
    if k == 0 {
      TopRow(rows, wage, 0);
    } else {
      TableIsProgressive(rows, wage, k - 1);
      PartsMeet(wage, rows[k - 1].lower, rows[k].lower);
      if wage < rows[k].lower {
        BelowTopRow(rows, wage, k);
      } else {
        TopRow(rows, wage, k);
        TopRow(rows, wage, k - 1);
        Distributes(rows[k - 1].pct, wage - rows[k].lower, rows[k].lower - rows[k - 1].lower);
      }
    }
  }

  lemma TopRow(rows: seq<BracketRow>, wage: nat, k: nat)
    requires k < |rows| && rows[k].lower <= wage
    ensures FederalWithholding.Exact(wage, rows, k + 1) == 100 * rows[k].base + rows[k].pct * (wage - rows[k].lower)
    ensures Part(wage, rows[k].lower, None) == wage - rows[k].lower
  {
  }

  lemma BelowTopRow(rows: seq<BracketRow>, wage: nat, k: nat)
    requires 0 < k < |rows| && wage < rows[k].lower
    ensures FederalWithholding.Exact(wage, rows, k + 1) == FederalWithholding.Exact(wage, rows, k)
  {
  }

  lemma PartsMeet(wage: nat, from: int, to: int)
    requires from <= to
    ensures if wage < to then Part(wage, from, Some(to)) == Part(wage, from, None) && Part(wage, to, None) == 0
            else Part(wage, from, Some(to)) == to - from
  {
  }

  lemma Distributes(pct: int, a: int, b: int)
    ensures pct * (a + b) == pct * a + pct * b
  {
  }

  /** The rows carry the starts and the rates. */
  lemma RowsAre(status: FilingStatus, checkbox: bool, i: nat)
    requires i < 8
    ensures |Brackets(status, checkbox)| == 8
    ensures Brackets(status, checkbox)[i].lower == 100 * Starts(status, checkbox)[i] && Brackets(status, checkbox)[i].pct == RATES[i]
  {
    assert i == 0 || i == 1 || i == 2 || i == 3 || i == 4 || i == 5 || i == 6 || i == 7;
  }

  lemma {:induction false} BelowRowIs(status: FilingStatus, checkbox: bool, rows: seq<BracketRow>, wage: nat, k: nat)
    requires k < 8 == |rows| && rows == Brackets(status, checkbox)
    ensures BelowRow(rows, wage, k) == Marginal(Starts(status, checkbox), wage, k)
  {
    hide Brackets, Starts, Part;
    if k > 0 {
      BelowRowIs(status, checkbox, rows, wage, k - 1);
      RowsAre(status, checkbox, k - 1);
      RowsAre(status, checkbox, k);
    }
  }

  lemma {:induction false} JumpsAre(status: FilingStatus, checkbox: bool, rows: seq<BracketRow>, wage: nat, k: nat)
    requires k < 8 == |rows| && rows == Brackets(status, checkbox)
    ensures JumpsReached(rows, wage, k) ==
            if !checkbox || status.MarriedJointly? then 0
            else (if k >= 5 && wage >= 10893800 then -1200 else 0) + (if k >= 7 && wage >= 32835000 then 1800 else 0)
  {
    hide Brackets, Jump;
    if k > 0 {
      JumpsAre(status, checkbox, rows, wage, k - 1);
      TableJumps(status, checkbox, k);
      RowsAre(status, checkbox, k);
    }
  }

  /** Each status and checkbox reads its own schedule, as a progressive tax. */
  lemma ExactIsAnnualTax(status: FilingStatus, checkbox: bool, rows: seq<BracketRow>, wage: nat)
    requires rows == Brackets(status, checkbox)
    ensures |rows| == 8 && FederalWithholding.Exact(wage, rows, 8) == AnnualTax(status, checkbox, wage)
  {
    hide Brackets, Starts, FederalWithholding.Exact, Part, JumpsReached, BelowRow;
    TablesWellFormed(status, checkbox);
    TableIsProgressive(rows, wage, 7);
    RowsAre(status, checkbox, 7);
    BelowRowIs(status, checkbox, rows, wage, 7);
    JumpsAre(status, checkbox, rows, wage, 7);
  }

  lemma AdjustedIsTaxableYear(wages: real, p: PayPeriods, w4: W4)
    ensures AdjustedAnnualWage(wages, p, w4) == TaxableYear(wages, p, w4)
  {
    var income := Money(Money(wages * p as real) as real + w4.otherIncome);
    var exempt := Money(w4.deductions + (if w4.checkbox then 0 else Step1Standard(w4.status)) as real);
    MoneyOfCents(income - exempt);
  }

  /**
    For every W-4, pay frequency and wage: withholding is the progressive tax on the year, rounded to the
    cent, shared over the pay periods, less the period's share of the dependents' credit, never below zero.
   */
  lemma WithholdingIsProgressive(wages: real, p: PayPeriods, w4: W4)
    ensures var annual := Money(AnnualTax(w4.status, w4.checkbox, TaxableYear(wages, p, w4)) as real / 100.0);
      var net := Money(annual as real / p as real) - Money(w4.dependents / p as real);
      Withholding(wages, p, w4) == if net < 0 then 0 else net
    ensures AnnualTax(w4.status, w4.checkbox, TaxableYear(wages, p, w4)) >= 0
  {
    hide Brackets, FederalWithholding.Exact, AnnualTentative, PerPeriod, AdjustedAnnualWage, TaxableYear, AnnualTax;
    var rows, year := Brackets(w4.status, w4.checkbox), TaxableYear(wages, p, w4);
    AdjustedIsTaxableYear(wages, p, w4);
    TablesWellFormed(w4.status, w4.checkbox);
    ExactIsAnnualTax(w4.status, w4.checkbox, rows, year);
    AnnualIsRoundedExact(year, rows);
    PerPeriodIs(AnnualTentative(year, rows), p, w4.dependents);
  }

  // ---------------------------------------------------------------------------------------------
  // Who has nothing withheld
  // ---------------------------------------------------------------------------------------------

  lemma RoundsBelow(x: real, h: int)
    requires x >= 0.0
    ensures Money(x) < h <==> x < h as real - 0.5
  {
  }

  /** Rounding an annual amount, then its share of p periods, gives at most `credit` below one threshold. */
  lemma SharesAtMost(tax: nat, p: PayPeriods, credit: nat)
    ensures Money(Money(tax as real / 100.0) as real / p as real) <= credit <==> tax < 50 * (p * (2 * credit + 1) - 1)
  {
    var annual, h := Money(tax as real / 100.0), p / 2 * (2 * credit + 1);
    RoundsBelow(tax as real / 100.0, h);
    assert annual >= 0;
    hide Money;
    ShareBelow(annual, p, credit);
    ShareNonNegative(annual, p);
    RoundsBelow(annual as real / p as real, credit + 1);
    TwiceHalf(p, 2 * credit + 1);
    assert tax as real / 100.0 < h as real - 0.5 <==> tax < 100 * h - 50;
  }

  lemma TwiceHalf(p: PayPeriods, n: nat)
    ensures p * n == 2 * (p / 2 * n)
  {
    assert p == 2 * (p / 2);
  }

  lemma ShareNonNegative(annual: nat, p: PayPeriods)
    ensures annual as real / p as real >= 0.0
  {
  }

  lemma ShareBelow(annual: nat, p: PayPeriods, credit: nat)
    ensures annual as real / p as real < credit as real + 0.5 <==> annual < p / 2 * (2 * credit + 1)
  {
    if p == 12 {
    } else if p == 24 {
    } else if p == 26 {
    } else {
    }
  }

  /** Nothing is withheld exactly below one threshold of the year's tax, which the period's credit raises. */
  lemma NothingWithheldExactly(wages: real, p: PayPeriods, w4: W4)
    ensures Withholding(wages, p, w4) == 0 <==>
            AnnualTax(w4.status, w4.checkbox, TaxableYear(wages, p, w4)) < 50 * (p * (2 * Money(w4.dependents / p as real) + 1) - 1)
  {
    hide AnnualTax, TaxableYear, Withholding;
    WithholdingIsProgressive(wages, p, w4);
    CreditNonNegative(w4.dependents, p);
    SharesAtMost(AnnualTax(w4.status, w4.checkbox, TaxableYear(wages, p, w4)), p, Money(w4.dependents / p as real));
  }

  lemma CreditNonNegative(dependents: Cents, p: PayPeriods)
    ensures Money(dependents / p as real) >= 0
  {
  }

  /** The year's income that bears no tax: $16,100, or $32,200 for joint filers, and half of it with the checkbox. */
  function TaxFree(status: FilingStatus, checkbox: bool): int {
    (if status.MarriedJointly? then 3220000 else 1610000) / if checkbox then 2 else 1
  }

  /**
    Without a credit nothing is withheld exactly while the year's wages and other income, less the W-4
    deductions, stay under the tax-free amount, give or take the few cents whose tax rounds away.
   */
  lemma TaxFreeExactly(wages: real, p: PayPeriods, w4: W4)
    requires w4.dependents == 0.0
    ensures Withholding(wages, p, w4) == 0 <==>
            Money(Money(wages * p as real) as real + w4.otherIncome) - Money(w4.deductions)
              < TaxFree(w4.status, w4.checkbox) + 5 * (p - 1)
  {
    hide AnnualTax, Withholding;
    NothingWithheldExactly(wages, p, w4);
    assert Money(w4.dependents / p as real) == 0;
    FirstBracket(w4.status, w4.checkbox, TaxableYear(wages, p, w4), 5 * (p - 1));
    MoneyShift(if w4.checkbox then 0 else if w4.status.MarriedJointly? then 1290000 else 860000, w4.deductions);
  }

  /** Just above the zero bracket the tax is a tenth of the excess. */
  lemma FirstBracket(status: FilingStatus, checkbox: bool, year: nat, slack: nat)
    requires 0 < slack < 1000
    ensures AnnualTax(status, checkbox, year) < 10 * slack <==> year < 100 * Starts(status, checkbox)[1] + slack
  {
    var starts := Starts(status, checkbox);
    AboveFirst(starts, year, 8);
    assert Marginal(starts, year, 1) == RATES[0] * Part(year, 0, Some(100 * starts[1])) == 0;
    assert Marginal(starts, year, 2) == RATES[1] * Part(year, 100 * starts[1], Some(100 * starts[2]));
    if year <= 100 * starts[2] {
      NothingAbove(starts, year, 8);
    }
  }

  lemma {:induction false} AboveFirst(starts: seq<int>, year: nat, n: nat)
    requires 2 <= n <= |starts| == 8
    ensures Marginal(starts, year, n) >= Marginal(starts, year, 2)
  {
    if n > 2 {
      AboveFirst(starts, year, n - 1);
    }
  }

  lemma {:induction false} NothingAbove(starts: seq<int>, year: nat, n: nat)
    requires 2 <= n <= |starts| == 8 && forall i | 2 <= i < n :: year <= 100 * starts[i]
    ensures Marginal(starts, year, n) == Marginal(starts, year, 2)
  {
    if n > 2 {
      NothingAbove(starts, year, n - 1);
    }
  }
}
