/** The paystub's two columns: this period, and the year to date built from prior reconciled lines. */
module Paystub {
  import opened Prelude
  import opened Contracts
  import opened CalcEngine

  datatype YtdTotals = YtdTotals(
    gross: int,
    federal: int,
    ficaSs: int,
    ficaMedicare: int,
    state: int,
    pretax401k: int,
    net: int)

  const NO_PRIOR := YtdTotals(0, 0, 0, 0, 0, 0, 0)

  function StateOf(item: PaystubLineItem): int {
    if item.state.Some? then item.state.value else 0
  }

  /** Prior values plus this pay period; absent prior values count as zero. */
  function FromPrior(prior: Option<YtdTotals>, item: PaystubLineItem): YtdTotals {
    var p := if prior.Some? then prior.value else NO_PRIOR;
    YtdTotals(p.gross + item.gross, p.federal + item.federal, p.ficaSs + item.ficaSs, p.ficaMedicare + item.ficaMedicare,
              p.state + StateOf(item), p.pretax401k + item.pretax401k, p.net + item.net)
  }

  /** Column sums over an employee's reconciled lines; nothing at all when there are none. */
  function PriorTotals(history: seq<PaystubLineItem>): Option<YtdTotals> {
    if history == [] then None
    else Some(FromPrior(PriorTotals(history[..|history| - 1]), history[|history| - 1]))
  }

  function YtdDeductions(ytd: YtdTotals): int {
    ytd.federal + ytd.ficaSs + ytd.ficaMedicare + ytd.state + ytd.pretax401k
  }

  /** Total of the deduction rows shown, which omits absent or zero state tax and a zero 401k share. */
  method SumDeductions(item: PaystubLineItem) returns (total: int)
    ensures total == item.federal + item.ficaSs + item.ficaMedicare + StateOf(item) + item.pretax401k
  {
    total := item.federal + item.ficaSs + item.ficaMedicare;
    if item.state.Some? && item.state.value != 0 {
      total := total + item.state.value;
    }
    if item.pretax401k != 0 {
      total := total + item.pretax401k;
    }
  }

  /** A line produced by the calculation engine. */
  ghost predicate Computed(item: PaystubLineItem) {
    exists raw: RawHours, employee: Employee, override: Option<Rate> :: Calculate(raw, employee, override) == Ok(item)
  }

  lemma ComputedTies(item: PaystubLineItem)
    requires Computed(item)
    ensures Ties(item)
  {
    var raw: RawHours, employee: Employee, override: Option<Rate> :| Calculate(raw, employee, override) == Ok(item);
    NeverDrifts(raw, employee, override);
  }

  /** For any history of computed lines, gross is total deductions plus net in both columns, to the cent. */
  lemma {:induction false} ColumnsTie(history: seq<PaystubLineItem>, item: PaystubLineItem)
    requires Computed(item) && forall h <- history :: Computed(h)
    ensures item.gross == item.federal + item.ficaSs + item.ficaMedicare + StateOf(item) + item.pretax401k + item.net
    ensures var ytd := FromPrior(PriorTotals(history), item); ytd.gross == YtdDeductions(ytd) + ytd.net
  {
    ComputedTies(item);
    if history != [] {
      ColumnsTie(history[..|history| - 1], history[|history| - 1]);
    }
  }

  function Total(items: seq<PaystubLineItem>, column: PaystubLineItem -> int): int {
    if items == [] then 0 else Total(items[..|items| - 1], column) + column(items[|items| - 1])
  }

  /** Each year-to-date figure is that column's total over the history and this line, absent state tax counting as nothing. */
  lemma {:induction false} YearToDateTotals(history: seq<PaystubLineItem>, item: PaystubLineItem)
    ensures var lines := history + [item];
      FromPrior(PriorTotals(history), item) ==
      YtdTotals(Total(lines, (x: PaystubLineItem) => x.gross),
                Total(lines, (x: PaystubLineItem) => x.federal),
                Total(lines, (x: PaystubLineItem) => x.ficaSs),
                Total(lines, (x: PaystubLineItem) => x.ficaMedicare),
                Total(lines, (x: PaystubLineItem) => if x.state.Some? then x.state.value else 0),
                Total(lines, (x: PaystubLineItem) => x.pretax401k),
                Total(lines, (x: PaystubLineItem) => x.net))
  {
    assert (history + [item])[..|history|] == history;
    if history != [] {
      var n := |history| - 1;
      YearToDateTotals(history[..n], history[n]);
      assert history[..n] + [history[n]] == history;
    }
  }
}
