/**
  The value types shared by every stage: employees, extractions, name matches and paystub lines.
  Decimal amounts are cents, hours are exact reals; employee ids are UUIDs as 128-bit numbers,
  whose numeric order is the order of their canonical text.
*/
module Contracts {
  import opened Prelude

  type EmployeeId = nat
  type Cents = x: real | x >= 0.0
  type Hours = h: real | h >= 0.0
  type Rate = r: real | 0.0 <= r <= 1.0
  type PayPeriods = p: int | p == 12 || p == 24 || p == 26 || p == 52 witness 12

  // ---------------------------------------------------------------------------------------------
  // Extraction
  // ---------------------------------------------------------------------------------------------

  datatype HoursField = Regular | Overtime | Vacation | Sick | Holiday

  const HOURS_FIELDS: seq<HoursField> := [Regular, Overtime, Vacation, Sick, Holiday]

  lemma AllFields(f: HoursField)
    ensures f in HOURS_FIELDS
  {
    assert HOURS_FIELDS[0] == Regular && HOURS_FIELDS[1] == Overtime && HOURS_FIELDS[2] == Vacation;
    assert HOURS_FIELDS[3] == Sick && HOURS_FIELDS[4] == Holiday;
  }

  /** One extracted employee: absent hours are None, an explicit zero is Some(0). */
  datatype ExtractedEmployee = ExtractedEmployee(
    submittedName: string,
    regular: Option<Hours>,
    overtime: Option<Hours>,
    vacation: Option<Hours>,
    sick: Option<Hours>,
    holiday: Option<Hours>,
    contribution401k: Option<Rate>)
  {
    function Get(f: HoursField): Option<Hours> {
      match f
      case Regular => regular
      case Overtime => overtime
      case Vacation => vacation
      case Sick => sick
      case Holiday => holiday
    }

    function With(f: HoursField, v: Option<Hours>): ExtractedEmployee {
      match f
      case Regular => this.(regular := v)
      case Overtime => this.(overtime := v)
      case Vacation => this.(vacation := v)
      case Sick => this.(sick := v)
      case Holiday => this.(holiday := v)
    }

    /** The same person with every hours field replaced. */
    function Mapped(g: HoursField -> Option<Hours>): ExtractedEmployee {
      ExtractedEmployee(submittedName, g(Regular), g(Overtime), g(Vacation), g(Sick), g(Holiday), contribution401k)
    }
  }

  /** Employees in extraction order; the run id and pay period ride along unchanged and are not modelled. */
  type Extracted = seq<ExtractedEmployee>

  function Names(extracted: Extracted): (names: seq<string>)
    ensures |names| == |extracted|
    ensures forall i | 0 <= i < |extracted| :: names[i] == extracted[i].submittedName
  {
    seq(|extracted|, i requires 0 <= i < |extracted| => extracted[i].submittedName)
  }

  // ---------------------------------------------------------------------------------------------
  // Roster
  // ---------------------------------------------------------------------------------------------

  datatype FilingStatus = Single | MarriedJointly | MarriedSeparately

  /** Hourly employees carry a rate and no salary, salaried ones a salary and no rate. */
  datatype Pay = Hourly(hourlyRate: Cents) | Salary(annualSalary: Cents)

  /** The W-4 facts the withholding worksheet reads. */
  datatype W4 = W4(status: FilingStatus, checkbox: bool, dependents: Cents, otherIncome: Cents, deductions: Cents)

  datatype Employee = Employee(
    id: EmployeeId,
    fullName: string,
    knownAliases: set<string>,
    pay: Pay,
    retirementPct: Rate,
    w4: W4,
    ytdSsWages: Cents,
    payPeriods: PayPeriods)

  ghost predicate UniqueIds(employees: seq<Employee>) {
    forall i, j | 0 <= i < j < |employees| :: employees[i].id != employees[j].id
  }

  /** A business's employees, with no id repeated. */
  type Roster = r: seq<Employee> | UniqueIds(r) witness []

  // ---------------------------------------------------------------------------------------------
  // Name matches
  // ---------------------------------------------------------------------------------------------

  datatype Source = Exact | Alias | NoSource | Operator

  datatype Match = Match(submittedName: string, matched: Option<EmployeeId>, source: Source, resolved: bool)

  /** A resolved name names an employee and a source; an unresolved one names neither. */
  predicate Consistent(m: Match) {
    m.resolved == m.matched.Some? == (m.source != NoSource)
  }

  type NameMatch = m: Match | Consistent(m) witness Match("", None, NoSource, false)

  /** Text that should hold an employee id: canonical text, or other text that may still parse as a UUID. */
  datatype IdText = Canonical(id: EmployeeId) | Foreign(text: string, parses: Option<EmployeeId>)

  function ParseId(t: IdText): Option<EmployeeId> {
    match t
    case Canonical(id) => Some(id)
    case Foreign(_, parses) => parses
  }

  // ---------------------------------------------------------------------------------------------
  // Paystub lines
  // ---------------------------------------------------------------------------------------------

  /** Hours after absent fields have become zero. */
  datatype HoursLine = HoursLine(regular: Hours, overtime: Hours, vacation: Hours, sick: Hours, holiday: Hours) {
    function Get(f: HoursField): Hours {
      match f
      case Regular => regular
      case Overtime => overtime
      case Vacation => vacation
      case Sick => sick
      case Holiday => holiday
    }
  }

  datatype PaystubLineItem = PaystubLineItem(
    employeeId: EmployeeId,
    submittedName: string,
    hours: HoursLine,
    gross: int,
    pretax401k: int,
    ficaSs: int,
    ficaMedicare: int,
    federal: int,
    state: Option<int>,
    net: int)
}
