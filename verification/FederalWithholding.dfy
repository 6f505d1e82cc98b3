/** Worksheet 1A of IRS Publication 15-T (2026), rounded to cents at every line, and the exact size of its distortions. */
module FederalWithholding {
  import opened Prelude
  import opened Contracts
  import opened Rounding
  import opened TaxTables2026

  /** Scans the first n rows from the top for the first one the wage reaches; falls back to the lowest row. */
  function FindBracket(wage: int, rows: seq<BracketRow>, n: nat): (row: BracketRow)
    requires 0 < n <= |rows|
    ensures row in rows[..n]
    ensures WellFormed(rows) && wage >= 0 ==> row.lower <= wage
    ensures WellFormed(rows) && wage >= 0 && (n == |rows| || wage < rows[n].lower) && row.upper.Some? ==>
              wage < row.upper.value
  {
    if wage >= rows[n - 1].lower then rows[n - 1]
    else if n == 1 then rows[0]
    else FindBracket(wage, rows, n - 1)
  }

  // ---------------------------------------------------------------------------------------------
  // The worksheet
  // ---------------------------------------------------------------------------------------------

  /** Lines 1a to 1i: the adjusted annual wage. */
  function AdjustedAnnualWage(wages: real, p: PayPeriods, w4: W4): (line1i: nat) {
    AdjustedFrom(Annualized(wages, p), w4)
  }

  /** Line 1c. */
  function Annualized(wages: real, p: PayPeriods): int {
    Money(wages * p as real)
  }

  /** Lines 1d to 1i, from the annualised wage. */
  function AdjustedFrom(line1c: int, w4: W4): (line1i: nat) {
    var line1e := Money(line1c as real + w4.otherIncome);
    var line1g := if w4.checkbox then 0 else Step1Standard(w4.status);
    var line1h := Money(w4.deductions + line1g as real);
    var net := Money((line1e - line1h) as real);
    if net < 0 then 0 else net
  }

  /** Lines 2a to 2g: the annual tentative withholding. */
  function AnnualTentative(wage: int, rows: seq<BracketRow>): int
    requires |rows| > 0
  {
    var row := FindBracket(wage, rows, |rows|);
    var line2e := Money((wage - row.lower) as real);
    var line2f := Money((line2e * row.pct) as real / 100.0);
    Money((row.base + line2f) as real)
  }

  /** Line 2h to the end: the per-period amount after the Step 3 credit, never below zero. */
  function PerPeriod(line2g: int, p: PayPeriods, dependents: Cents): int {
    var line2h := Money(line2g as real / p as real);
    var line3b := Money(dependents / p as real);
    var line3c := Money((line2h - line3b) as real);
    if line3c < 0 then 0 else line3c
  }

  function Withholding(wages: real, p: PayPeriods, w4: W4): int {
    PerPeriod(AnnualTentative(AdjustedAnnualWage(wages, p, w4), Brackets(w4.status, w4.checkbox)), p, w4.dependents)
  }

  // ---------------------------------------------------------------------------------------------
  // The bracket tables: how two wages compare
  // ---------------------------------------------------------------------------------------------

  /** The unrounded table value, in hundredths of a cent, using the first n rows. */
  function Exact(wage: int, rows: seq<BracketRow>, n: nat): int
    requires 0 < n <= |rows|
  {
    var row := FindBracket(wage, rows, n);
    100 * row.base + (wage - row.lower) * row.pct
  }

  /** Total height of the downward jumps at the boundaries above a and up to b. */
  function Drops(rows: seq<BracketRow>, n: nat, a: int, b: int): (d: nat)
    requires n <= |rows|
  {
    if n <= 1 then 0
    else
      var below := Drops(rows, n - 1, a, b);
      if a < rows[n - 1].lower <= b && Jump(rows, n - 1) < 0 then below - Jump(rows, n - 1) else below
  }

  /** Total height of the upward jumps at the boundaries above a and up to b. */
  function Rises(rows: seq<BracketRow>, n: nat, a: int, b: int): (d: nat)
    requires n <= |rows|
  {
    if n <= 1 then 0
    else
      var below := Rises(rows, n - 1, a, b);
      if a < rows[n - 1].lower <= b && Jump(rows, n - 1) > 0 then below + Jump(rows, n - 1) else below
  }

  lemma MulBounds(d: nat, pct: int)
    requires 0 <= pct <= 37
    ensures 0 <= d * pct <= 37 * d
  {
  }

  lemma {:induction false} JumpsWiden(rows: seq<BracketRow>, n: nat, a: int, b: int, c: int)
    requires n <= |rows| && b <= c
    ensures Drops(rows, n, a, b) <= Drops(rows, n, a, c) && Rises(rows, n, a, b) <= Rises(rows, n, a, c)
  {
    if n > 1 {
      JumpsWiden(rows, n - 1, a, b, c);
    }
  }

  /** Both wages on the same row: the table value climbs at that row's rate. */
  lemma SameRow(rows: seq<BracketRow>, n: nat, a: int, b: int)
    requires WellFormed(rows) && 0 < n <= |rows| && 0 <= a <= b
    requires a >= rows[n - 1].lower
    ensures Exact(a, rows, n) <= Exact(b, rows, n) <= Exact(a, rows, n) + 37 * (b - a)
  {
    var row := rows[n - 1];
    MulBounds(b - a, row.pct);
    assert (b - row.lower) * row.pct == (a - row.lower) * row.pct + (b - a) * row.pct;
  }

  /** At a boundary the rows below and the row above disagree by exactly that boundary's jump. */
  lemma AtBoundary(rows: seq<BracketRow>, n: nat)
    requires WellFormed(rows) && 1 < n <= |rows|
    ensures rows[n - 1].lower > 0
    ensures Exact(rows[n - 1].lower, rows, n) == Exact(rows[n - 1].lower, rows, n - 1) + Jump(rows, n - 1)
  {
    LowersClimb(rows, n - 1);
    assert FindBracket(rows[n - 1].lower, rows, n - 1) == rows[n - 2];
  }

  lemma {:induction false} LowersClimb(rows: seq<BracketRow>, i: nat)
    requires WellFormed(rows) && i < |rows|
    ensures rows[i].lower >= i
  {
    if i > 0 {
      LowersClimb(rows, i - 1);
    }
  }

  ghost predicate Spread(rows: seq<BracketRow>, n: nat, a: int, b: int)
    requires 0 < n <= |rows|
  {
    && Exact(b, rows, n) >= Exact(a, rows, n) - Drops(rows, n, a, b)
    && Exact(b, rows, n) <= Exact(a, rows, n) + 37 * (b - a) + Rises(rows, n, a, b)
  }

  /** Below the top row's bound, the top row changes nothing. */
  lemma SpreadBelow(rows: seq<BracketRow>, n: nat, a: int, b: int)
    requires 1 < n <= |rows| && a <= b < rows[n - 1].lower
    ensures Exact(a, rows, n) == Exact(a, rows, n - 1)
    ensures Spread(rows, n, a, b) == Spread(rows, n - 1, a, b)
  {
    assert FindBracket(a, rows, n) == FindBracket(a, rows, n - 1);
    assert FindBracket(b, rows, n) == FindBracket(b, rows, n - 1);
    assert Drops(rows, n, a, b) == Drops(rows, n - 1, a, b);
    assert Rises(rows, n, a, b) == Rises(rows, n - 1, a, b);
  }

  lemma JumpsAcross(rows: seq<BracketRow>, n: nat, a: int, b: int)
    requires 1 < n <= |rows| && a < rows[n - 1].lower <= b
    ensures Drops(rows, n, a, b) >= Drops(rows, n - 1, a, rows[n - 1].lower) - Jump(rows, n - 1)
    ensures Drops(rows, n, a, b) >= Drops(rows, n - 1, a, rows[n - 1].lower)
    ensures Rises(rows, n, a, b) >= Rises(rows, n - 1, a, rows[n - 1].lower) + Jump(rows, n - 1)
    ensures Rises(rows, n, a, b) >= Rises(rows, n - 1, a, rows[n - 1].lower)
  {
    JumpsWiden(rows, n - 1, a, rows[n - 1].lower, b);
    var jump := Jump(rows, n - 1);
  }

  /**
    For any well-formed table: between two wages the table value can only fall by the downward
    jumps crossed, and can only climb by 37% of the difference plus the upward jumps crossed.
   */
  lemma {:induction false} ExactSpread(rows: seq<BracketRow>, n: nat, a: int, b: int)
    requires WellFormed(rows) && 0 < n <= |rows| && 0 <= a <= b
    ensures Spread(rows, n, a, b)
  {
    var edge := rows[n - 1].lower;
    if a >= edge {
      SameRow(rows, n, a, b);
    } else if b < edge {
      ExactSpread(rows, n - 1, a, b);
      SpreadBelow(rows, n, a, b);
    } else {
      // Split at the boundary: below it the smaller table applies, above it only the top row.
      ExactSpread(rows, n - 1, a, edge);
      SpreadAcross(rows, n, a, b);
    }
  }

  lemma SpreadAcross(rows: seq<BracketRow>, n: nat, a: int, b: int)
    requires WellFormed(rows) && 1 < n <= |rows| && 0 <= a < rows[n - 1].lower <= b
    requires Spread(rows, n - 1, a, rows[n - 1].lower)
    ensures Spread(rows, n, a, b)
  {
    var edge := rows[n - 1].lower;
    SpreadBelow(rows, n, a, a);
    JumpsAcross(rows, n, a, b);
    AtBoundary(rows, n);
    SameRow(rows, n, edge, b);
  }

  /** Rounding at lines 2e, 2f and 2g together is one rounding of the exact table value. */
  lemma AnnualIsRoundedExact(wage: nat, rows: seq<BracketRow>)
    requires WellFormed(rows)
    ensures AnnualTentative(wage, rows) == Money(Exact(wage, rows, |rows|) as real / 100.0)
    ensures Exact(wage, rows, |rows|) >= 0
  {
    var row := FindBracket(wage, rows, |rows|);
    var excess := wage - row.lower;
    MoneyOfCents(excess);
    MulBounds(excess, row.pct);
    var part := (excess * row.pct) as real / 100.0;
    MoneyShift(row.base, part);
    MoneyOfCents(row.base + Money(part));
    assert Exact(wage, rows, |rows|) as real / 100.0 == row.base as real + part;
  }

  /** What each reachable table loses and gains between two wages. */
  lemma TableDrops(status: FilingStatus, checkbox: bool, rows: seq<BracketRow>, a: int, b: int)
    requires rows == Brackets(status, checkbox)
    ensures |rows| == 8
    ensures Drops(rows, 8, a, b) == if checkbox && !status.MarriedJointly? && a < 10893800 <= b then 1200 else 0
    ensures Rises(rows, 8, a, b) == if checkbox && !status.MarriedJointly? && a < 32835000 <= b then 1800 else 0
  {
    forall i | 0 < i < 8
      ensures Jump(rows, i) == if checkbox && !status.MarriedJointly? && i == 5 then -1200
                               else if checkbox && !status.MarriedJointly? && i == 7 then 1800 else 0
    {
      TableJumps(status, checkbox, i);
    }
    assert Drops(rows, 1, a, b) == Rises(rows, 1, a, b) == 0;
    assert Drops(rows, 3, a, b) == Rises(rows, 3, a, b) == 0;
    assert Drops(rows, 5, a, b) == Rises(rows, 5, a, b) == 0;
    assert Rises(rows, 7, a, b) == 0;
    assert Drops(rows, 6, a, b) == Drops(rows, 7, a, b) == Drops(rows, 8, a, b);
  }

  /** Annual tentative withholding never falls by more than 12 cents nor climbs by more than 37% plus 19 cents. */
  lemma AnnualSpread(status: FilingStatus, checkbox: bool, rows: seq<BracketRow>, a: nat, b: nat)
    requires a <= b && rows == Brackets(status, checkbox)
    ensures |rows| > 0
    ensures AnnualTentative(b, rows) >= AnnualTentative(a, rows) -
            (if checkbox && !status.MarriedJointly? && a < 10893800 <= b then 12 else 0)
    ensures AnnualTentative(b, rows) as real <= AnnualTentative(a, rows) as real + 0.37 * (b - a) as real + 19.0
  {
    TablesWellFormed(status, checkbox);
    AnnualIsRoundedExact(a, rows);
    AnnualIsRoundedExact(b, rows);
    ExactSpread(rows, 8, a, b);
    TableDrops(status, checkbox, rows, a, b);
    var x, y := Exact(a, rows, 8), Exact(b, rows, 8);
    MoneyNear(x as real / 100.0);
    MoneyNear(y as real / 100.0);
    if y >= x {
      MoneyMonotone(x as real / 100.0, y as real / 100.0);
    } else {
      MoneyMonotone(x as real / 100.0, 12.0 + y as real / 100.0);
      MoneyShift(12, y as real / 100.0);
    }
  }

  // ---------------------------------------------------------------------------------------------
  // The whole worksheet
  // ---------------------------------------------------------------------------------------------

  /** Annualising: order kept, and the gap grows by the factor p plus one cent of rounding. */
  lemma AnnualizeSpread(wages: real, more: real, p: PayPeriods)
    requires wages <= more
    ensures Annualized(wages, p) <= Annualized(more, p)
    ensures Annualized(more, p) as real <= Annualized(wages, p) as real + (more - wages) * p as real + 1.0
    ensures wages >= 0.0 ==> Annualized(wages, p) >= 0
  {
    var x, y := wages * p as real, more * p as real;
    assert y - x == (more - wages) * p as real;
    assert x <= y;
    MoneyMonotone(x, y);
    MoneyNear(x);
    MoneyNear(y);
    if wages >= 0.0 {
      MoneyMonotone(0.0, x);
      MoneyOfCents(0);
    }
  }

  lemma AfterAnnualizing(c: int, c': int, w4: W4)
    requires c <= c'
    ensures AdjustedFrom(c, w4) <= AdjustedFrom(c', w4)
    ensures c >= 0 ==> AdjustedFrom(c', w4) <= AdjustedFrom(c, w4) + c' - c
  {
    var line1h := Money(w4.deductions + (if w4.checkbox then 0 else Step1Standard(w4.status)) as real);
    var x, x' := c as real + w4.otherIncome, c' as real + w4.otherIncome;
    MoneyMonotone(x, x');
    if c >= 0 {
      MoneyShift(c, w4.otherIncome);
      MoneyShift(c', w4.otherIncome);
    }
    MoneyOfCents(Money(x) - line1h);
    MoneyOfCents(Money(x') - line1h);
    assert AdjustedFrom(c, w4) == if Money(x) < line1h then 0 else Money(x) - line1h;
    assert AdjustedFrom(c', w4) == if Money(x') < line1h then 0 else Money(x') - line1h;
  }

  /** The adjusted annual wage follows line 1c: monotone, and no further apart once wages are non-negative. */
  lemma AdjustedSpread(wages: real, more: real, p: PayPeriods, w4: W4)
    requires wages <= more
    ensures AdjustedAnnualWage(wages, p, w4) <= AdjustedAnnualWage(more, p, w4)
    ensures wages >= 0.0 ==>
              AdjustedAnnualWage(more, p, w4) - AdjustedAnnualWage(wages, p, w4) <= Annualized(more, p) - Annualized(wages, p)
  {
    AnnualizeSpread(wages, more, p);
    AfterAnnualizing(Annualized(wages, p), Annualized(more, p), w4);
  }

  /** Dividing two annual amounts by the pay periods keeps their order and scales their gap. */
  lemma QuotientSpread(x: int, y: int, p: PayPeriods)
    ensures x <= y ==> x as real / p as real <= y as real / p as real
    ensures y as real / p as real - x as real / p as real == (y - x) as real / p as real
    ensures x <= y + 12 ==> x as real / p as real <= y as real / p as real + 1.0
    ensures y >= 0 ==> y as real / p as real >= 0.0
  {
    if p == 12 {
    } else if p == 24 {
    } else if p == 26 {
    } else {
    }
  }

  /** The Step 3 credit and the floor: line 3c as a function of line 2h. */
  lemma PerPeriodIs(line2g: int, p: PayPeriods, dependents: Cents)
    ensures var net := Money(line2g as real / p as real) - Money(dependents / p as real);
      PerPeriod(line2g, p, dependents) == if net < 0 then 0 else net
  {
    MoneyOfCents(Money(line2g as real / p as real) - Money(dependents / p as real));
  }

  /** Dividing by the pay periods, crediting Step 3 and flooring keeps the order and adds at most a cent of rounding. */
  lemma PerPeriodSpread(x: int, y: int, p: PayPeriods, dependents: Cents)
    ensures x <= y ==> PerPeriod(x, p, dependents) <= PerPeriod(y, p, dependents)
    ensures 0 <= y && x <= y + 12 ==> PerPeriod(x, p, dependents) <= PerPeriod(y, p, dependents) + 1
    ensures x <= y ==>
              PerPeriod(y, p, dependents) as real <= PerPeriod(x, p, dependents) as real + (y - x) as real / p as real + 1.0
    ensures Money(x as real / p as real) == Money(y as real / p as real) ==>
              PerPeriod(x, p, dependents) == PerPeriod(y, p, dependents)
  {
    PerPeriodIs(x, p, dependents);
    PerPeriodIs(y, p, dependents);
    QuotientSpread(x, y, p);
    var qx, qy := x as real / p as real, y as real / p as real;
    if x <= y {
      MoneyMonotone(qx, qy);
      MoneyNear(qx);
      MoneyNear(qy);
    } else if 0 <= y && x <= y + 12 {
      MoneyMonotone(qx, qy + 1.0);
      MoneyShift(1, qy);
    }
  }

  /** Raising the wages never lowers the withholding by more than one cent. */
  lemma NeverFallsMoreThanACent(wages: real, more: real, p: PayPeriods, w4: W4)
    requires wages <= more
    ensures Withholding(more, p, w4) >= Withholding(wages, p, w4) - 1
  {
    AdjustedSpread(wages, more, p, w4);
    var a, b := AdjustedAnnualWage(wages, p, w4), AdjustedAnnualWage(more, p, w4);
    var rows := Brackets(w4.status, w4.checkbox);
    AnnualSpread(w4.status, w4.checkbox, rows, a, b);
    AnnualNonNegative(w4, b);
    PerPeriodSpread(AnnualTentative(a, rows), AnnualTentative(b, rows), p, w4.dependents);
  }

  lemma AnnualNonNegative(w4: W4, a: nat)
    ensures |Brackets(w4.status, w4.checkbox)| > 0 && AnnualTentative(a, Brackets(w4.status, w4.checkbox)) >= 0
  {
    var rows := Brackets(w4.status, w4.checkbox);
    TablesWellFormed(w4.status, w4.checkbox);
    AnnualIsRoundedExact(a, rows);
    MoneyMonotone(0.0, Exact(a, rows, |rows|) as real / 100.0);
    MoneyOfCents(0);
  }

  /** Raising non-negative wages by d raises the withholding by at most 37% of d plus three cents. */
  lemma SlopeAtMost37PercentPlusThreeCents(wages: real, more: real, p: PayPeriods, w4: W4)
    requires 0.0 <= wages <= more
    ensures Withholding(more, p, w4) as real <= Withholding(wages, p, w4) as real + 0.37 * (more - wages) + 3.0
  {
    AdjustedSpread(wages, more, p, w4);
    AnnualizeSpread(wages, more, p);
    SlopeFromAdjusted(AdjustedAnnualWage(wages, p, w4), AdjustedAnnualWage(more, p, w4), more - wages, p, w4);
  }

  lemma SlopeFromAdjusted(a: nat, b: nat, d: real, p: PayPeriods, w4: W4)
    requires a <= b && d >= 0.0
    requires b as real <= a as real + d * p as real + 1.0
    ensures |Brackets(w4.status, w4.checkbox)| > 0
    ensures PerPeriod(AnnualTentative(b, Brackets(w4.status, w4.checkbox)), p, w4.dependents) as real <=
            PerPeriod(AnnualTentative(a, Brackets(w4.status, w4.checkbox)), p, w4.dependents) as real + 0.37 * d + 3.0
  {
    var rows := Brackets(w4.status, w4.checkbox);
    var gap := d * p as real + 1.0;
    AnnualSlope(w4.status, w4.checkbox, rows, a, b, gap);
    SlopeFromAnnual(AnnualTentative(a, rows), AnnualTentative(b, rows), gap, d, p, w4.dependents);
  }

  lemma AnnualSlope(status: FilingStatus, checkbox: bool, rows: seq<BracketRow>, a: nat, b: nat, gap: real)
    requires a <= b && rows == Brackets(status, checkbox)
    requires b as real <= a as real + gap
    ensures |rows| > 0
    ensures AnnualTentative(b, rows) as real <= AnnualTentative(a, rows) as real + 0.37 * gap + 19.0
  {
    AnnualSpread(status, checkbox, rows, a, b);
    assert (b - a) as real <= gap;
  }

  lemma SlopeFromAnnual(x: int, y: int, gap: real, d: real, p: PayPeriods, dependents: Cents)
    requires gap <= d * p as real + 1.0 && d >= 0.0
    requires y as real <= x as real + 0.37 * gap + 19.0
    ensures PerPeriod(y, p, dependents) as real <= PerPeriod(x, p, dependents) as real + 0.37 * d + 3.0
  {
    if x <= y {
      PerPeriodSpread(x, y, p, dependents);
      SlopePerPeriod((y - x) as real, d, p);
    } else {
      PerPeriodSpread(y, x, p, dependents);
    }
  }

  lemma SlopePerPeriod(gain: real, d: real, p: PayPeriods)
    requires gain <= 0.37 * (d * p as real + 1.0) + 19.0
    ensures gain / p as real + 1.0 <= 0.37 * d + 3.0
  {
    if p == 12 {
    } else if p == 24 {
    } else if p == 26 {
    } else {
    }
  }

  // ---------------------------------------------------------------------------------------------
  // Exactly when raising the wages can lower the withholding
  // ---------------------------------------------------------------------------------------------

  ghost predicate NeverFalls(status: FilingStatus, checkbox: bool, p: PayPeriods) {
    forall wages: real, more: real, w4: W4 | wages <= more && w4.status == status && w4.checkbox == checkbox ::
      Withholding(wages, p, w4) <= Withholding(more, p, w4)
  }

  /** The whole of the 12-cent drop lies inside one rounding cell when p is 24 or 52. */
  lemma DropHidden(x: int, y: int, p: PayPeriods)
    requires p == 24 || p == 52
    requires 2051200 <= y <= x <= 2051212
    ensures Money(x as real / p as real) == Money(y as real / p as real)
  {
    var k := if p == 24 then 85467 else 39446;
    RoundsTo(x, p, k);
    RoundsTo(y, p, k);
  }

  lemma RoundsTo(x: nat, p: PayPeriods, k: nat)
    requires 2 * p * k - p <= 2 * x < 2 * p * k + p
    ensures Money(x as real / p as real) == k
  {
    var q := x as real / p as real;
    assert k as real - 0.5 <= q < k as real + 0.5;
  }

  lemma NoFall(wages: real, more: real, p: PayPeriods, w4: W4)
    requires wages <= more
    requires !w4.checkbox || w4.status.MarriedJointly? || p == 24 || p == 52
    ensures Withholding(wages, p, w4) <= Withholding(more, p, w4)
  {
    AdjustedSpread(wages, more, p, w4);
    var a, b := AdjustedAnnualWage(wages, p, w4), AdjustedAnnualWage(more, p, w4);
    var rows := Brackets(w4.status, w4.checkbox);
    AnnualSpread(w4.status, w4.checkbox, rows, a, b);
    var x, y := AnnualTentative(a, rows), AnnualTentative(b, rows);
    PerPeriodSpread(x, y, p, w4.dependents);
    if w4.checkbox && !w4.status.MarriedJointly? && a < 10893800 <= b && y < x {
      var edge := AnnualTentative(10893800, rows);
      assert edge == 2051200 by { EdgeValue(w4.status, 10893800); }
      AnnualSpread(w4.status, w4.checkbox, rows, a, 10893800);
      AnnualSpread(w4.status, w4.checkbox, rows, 10893800, b);
      DropHidden(x, y, p);
    }
  }

  /** The row that applies on either side of the drop. */
  lemma EdgeRow(status: FilingStatus, wage: nat)
    requires !status.MarriedJointly? && 6090000 <= wage <= 10893800
    ensures |Brackets(status, true)| == 8
    ensures FindBracket(wage, Brackets(status, true), 8) ==
            if wage == 10893800 then BracketRow(10893800, Some(13616300), 2051200, 32)
            else BracketRow(6090000, Some(10893800), 898300, 24)
  {
    var rows := Brackets(status, true);
    assert FindBracket(wage, rows, 8) == FindBracket(wage, rows, 7);
    assert FindBracket(wage, rows, 7) == FindBracket(wage, rows, 6);
    if wage < 10893800 {
      assert FindBracket(wage, rows, 6) == FindBracket(wage, rows, 5);
    }
  }

  /** The annual value on the two rows around the drop, evaluated at a wage. */
  lemma EdgeValue(status: FilingStatus, wage: nat)
    requires !status.MarriedJointly? && 6090000 <= wage <= 10893800
    ensures |Brackets(status, true)| == 8
    ensures wage == 10893800 ==> AnnualTentative(wage, Brackets(status, true)) == 2051200
    ensures wage < 10893800 ==>
              AnnualTentative(wage, Brackets(status, true)) == 898300 + Money(((wage - 6090000) * 24) as real / 100.0)
  {
    hide FindBracket, Brackets, Money;
    EdgeRow(status, wage);
    MoneyOfCents(0);
    MoneyOfCents(2051200);
    MoneyOfCents(wage - 6090000);
    MoneyOfCents(898300 + Money(((wage - 6090000) * 24) as real / 100.0));
  }

  function FallW4(status: FilingStatus, p: PayPeriods): W4 {
    W4(status, true, 0.0, if p == 12 then 200.0 else 8.0, 0.0)
  }

  function FallWages(p: PayPeriods): real {
    if p == 12 then 907799.0 else 418991.0
  }

  /** The adjusted annual wage of the witness, and of the witness with `extra` cents more. */
  lemma FallAdjusted(status: FilingStatus, p: PayPeriods, extra: int)
    requires p == 12 || p == 26
    requires extra == 0 || extra == 1
    ensures AdjustedAnnualWage(FallWages(p) + extra as real, p, FallW4(status, p)) ==
            (if p == 12 then 10893788 else 10893774) + extra * p
  {
    var w4 := FallW4(status, p);
    var annual := (if p == 12 then 10893588 else 10893766) + extra * p;
    assert (FallWages(p) + extra as real) * p as real == annual as real;
    MoneyOfCents(annual);
    MoneyOfCents(annual + (if p == 12 then 200 else 8));
    MoneyOfCents(0);
  }

  lemma FallAnnual(status: FilingStatus, p: PayPeriods)
    requires !status.MarriedJointly? && (p == 12 || p == 26)
    ensures |Brackets(status, true)| == 8
    ensures AnnualTentative(if p == 12 then 10893788 else 10893774, Brackets(status, true)) ==
            if p == 12 then 2051209 else 2051206
  {
    EdgeValue(status, if p == 12 then 10893788 else 10893774);
  }

  lemma PerPeriodWithoutCredit(line2g: nat, p: PayPeriods, k: nat)
    requires 2 * p * k - p <= 2 * line2g < 2 * p * k + p
    ensures PerPeriod(line2g, p, 0.0) == k
  {
    RoundsTo(line2g, p, k);
    MoneyOfCents(0);
    PerPeriodIs(line2g, p, 0.0);
  }

  /** Concrete wages one cent apart whose withholding falls by a cent, monthly and biweekly. */
  lemma FallWitness(status: FilingStatus, p: PayPeriods)
    requires !status.MarriedJointly? && (p == 12 || p == 26)
    ensures Withholding(FallWages(p) + 1.0, p, FallW4(status, p)) == Withholding(FallWages(p), p, FallW4(status, p)) - 1
  {
    FallAdjusted(status, p, 0);
    FallAdjusted(status, p, 1);
    FallAnnual(status, p);
    EdgeValue(status, 10893800);
    PerPeriodWithoutCredit(2051200, p, if p == 12 then 170933 else 78892);
    PerPeriodWithoutCredit(if p == 12 then 2051209 else 2051206, p, if p == 12 then 170934 else 78893);
  }

  /**
    Raising the wages can lower the withholding exactly for Single/separate filers with the
    Step 2 box checked who are paid monthly or biweekly.
   */
  lemma NeverFallsExactly(status: FilingStatus, checkbox: bool, p: PayPeriods)
    ensures NeverFalls(status, checkbox, p) <==> !(checkbox && !status.MarriedJointly? && (p == 12 || p == 26))
  {
    if checkbox && !status.MarriedJointly? && (p == 12 || p == 26) {
      FallWitness(status, p);
      assert FallW4(status, p).status == status;
    } else {
      forall wages: real, more: real, w4: W4 | wages <= more && w4.status == status && w4.checkbox == checkbox
        ensures Withholding(wages, p, w4) <= Withholding(more, p, w4)
      {
        NoFall(wages, more, p, w4);
      }
    }
  }
}
