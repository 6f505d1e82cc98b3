/**
  The reachable percentage-method tables of IRS Publication 15-T (2026), Worksheet 1A (page 12),
  the line 1g amounts (page 10) and the FICA constants. Amounts are in cents, rates in percent.
*/
module TaxTables2026 {
  import opened Prelude
  import opened Contracts

  /** One table row: at least `lower`, less than `upper` (none on the top row), `base` plus `pct`% of the excess. */
  datatype BracketRow = BracketRow(lower: int, upper: Option<int>, base: int, pct: int)

  const MFJ_STANDARD: seq<BracketRow> := [
    BracketRow(0,         Some(1930000),  0,        0),
    BracketRow(1930000,   Some(4410000),  0,        10),
    BracketRow(4410000,   Some(12010000), 248000,   12),
    BracketRow(12010000,  Some(23070000), 1160000,  22),
    BracketRow(23070000,  Some(42285000), 3593200,  24),
    BracketRow(42285000,  Some(53175000), 8204800,  32),
    BracketRow(53175000,  Some(78800000), 11689600, 35),
    BracketRow(78800000,  None,           20658350, 37)
  ]

  const SINGLE_STANDARD: seq<BracketRow> := [
    BracketRow(0,         Some(750000),   0,        0),
    BracketRow(750000,    Some(1990000),  0,        10),
    BracketRow(1990000,   Some(5790000),  124000,   12),
    BracketRow(5790000,   Some(11320000), 580000,   22),
    BracketRow(11320000,  Some(20927500), 1796600,  24),
    BracketRow(20927500,  Some(26372500), 4102400,  32),
    BracketRow(26372500,  Some(64810000), 5844800,  35),
    BracketRow(64810000,  None,           19297925, 37)
  ]

  const MFJ_STEP2: seq<BracketRow> := [
    BracketRow(0,         Some(1610000),  0,        0),
    BracketRow(1610000,   Some(2850000),  0,        10),
    BracketRow(2850000,   Some(6650000),  124000,   12),
    BracketRow(6650000,   Some(12180000), 580000,   22),
    BracketRow(12180000,  Some(21787500), 1796600,  24),
    BracketRow(21787500,  Some(27232500), 4102400,  32),
    BracketRow(27232500,  Some(40045000), 5844800,  35),
    BracketRow(40045000,  None,           10329175, 37)
  ]

  const SINGLE_STEP2: seq<BracketRow> := [
    BracketRow(0,         Some(805000),   0,        0),
    BracketRow(805000,    Some(1425000),  0,        10),
    BracketRow(1425000,   Some(3325000),  62000,    12),
    BracketRow(3325000,   Some(6090000),  290000,   22),
    BracketRow(6090000,   Some(10893800), 898300,   24),
    BracketRow(10893800,  Some(13616300), 2051200,  32),
    BracketRow(13616300,  Some(32835000), 2922400,  35),
    BracketRow(32835000,  None,           9648963,  37)
  ]

  /** Single and married-separately share one table; the Step 2 checkbox selects the second schedule. */
  function Brackets(status: FilingStatus, checkbox: bool): seq<BracketRow> {
    if checkbox then
      if status.MarriedJointly? then MFJ_STEP2 else SINGLE_STEP2
    else
      if status.MarriedJointly? then MFJ_STANDARD else SINGLE_STANDARD
  }

  /** Line 1g when the Step 2 box is not checked. */
  function Step1Standard(status: FilingStatus): int {
    if status.MarriedJointly? then 1290000 else 860000
  }

  const SS_WAGE_BASE: real := 18450000.0
  const SS_RATE: real := 0.062
  const MEDICARE_RATE: real := 0.0145

  /** Rows start at zero, climb, and hand over without a gap; rates are percentages. */
  ghost predicate WellFormed(rows: seq<BracketRow>) {
    && |rows| > 0
    && rows[0].lower == 0
    && rows[0].base == 0
    && rows[|rows| - 1].upper == None
    && (forall i | 0 <= i < |rows| :: 0 <= rows[i].base && 0 <= rows[i].pct <= 37)
    && (forall i | 0 < i < |rows| :: rows[i - 1].lower < rows[i].lower && rows[i - 1].upper == Some(rows[i].lower))
  }

  /**
    In hundredths of a cent, how far the base printed on row i lies above what the row
    below has accumulated when it reaches row i's lower bound.
   */
  function Jump(rows: seq<BracketRow>, i: nat): int
    requires 0 < i < |rows|
  {
    100 * rows[i].base - (100 * rows[i - 1].base + (rows[i].lower - rows[i - 1].lower) * rows[i - 1].pct)
  }

  /** Every reachable table is well formed. */
  lemma TablesWellFormed(status: FilingStatus, checkbox: bool)
    ensures WellFormed(Brackets(status, checkbox)) && |Brackets(status, checkbox)| == 8
  {
    var rows := Brackets(status, checkbox);
    assert |rows| == 8;
    forall i | 0 <= i < 8 ensures 0 <= rows[i].base && 0 <= rows[i].pct <= 37 {
      assert i == 0 || i == 1 || i == 2 || i == 3 || i == 4 || i == 5 || i == 6 || i == 7;
    }
    forall i | 0 < i < 8 ensures rows[i - 1].lower < rows[i].lower && rows[i - 1].upper == Some(rows[i].lower) {
      assert i == 1 || i == 2 || i == 3 || i == 4 || i == 5 || i == 6 || i == 7;
    }
  }

  /**
    Three of the four reachable tables are continuous at every boundary. The Single/separate
    Step 2 table is not: it drops 12 cents at $108,938 and climbs 18 cents at $328,350.
   */
  lemma TableJumps(status: FilingStatus, checkbox: bool, i: nat)
    requires 0 < i < 8
    ensures |Brackets(status, checkbox)| == 8
    ensures Jump(Brackets(status, checkbox), i) ==
            if checkbox && !status.MarriedJointly? && i == 5 then -1200
            else if checkbox && !status.MarriedJointly? && i == 7 then 1800
            else 0
  {
    var rows := Brackets(status, checkbox);
    assert i == 1 || i == 2 || i == 3 || i == 4 || i == 5 || i == 6 || i == 7;
  }
}
