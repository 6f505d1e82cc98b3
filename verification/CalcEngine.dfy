/** Gross, FICA, federal withholding and net for one employee, with the reconciliation backstop. */
module CalcEngine {
  import opened Prelude
  import opened Contracts
  import opened Rounding
  import opened TaxTables2026
  import opened FederalWithholding

  /** What can sit in the raw hours mapping. `Number` is a finite Decimal, int or numeric text. */
  datatype RawValue = Missing | Boolean | Float | EmptyText | Garbage | Number(v: real)

  type RawHours = map<string, RawValue>

  datatype CalcError =
    | UnknownKey
    | WrongType
    | NotANumber
    | NegativeHours
    | ReconciliationDrift

  function Key(f: HoursField): string {
    match f
    case Regular => "hours_regular"
    case Overtime => "hours_overtime"
    case Vacation => "hours_vacation"
    case Sick => "hours_sick"
    case Holiday => "hours_holiday"
  }

  const KEYS: set<string> := {"hours_regular", "hours_overtime", "hours_vacation", "hours_sick", "hours_holiday"}

  function ToDecimal(value: RawValue): Result<Hours, CalcError> {
    match value
    case Missing => Ok(0.0)
    case Boolean => Err(WrongType)
    case Float => Err(WrongType)
    case EmptyText => Ok(0.0)
    case Garbage => Err(NotANumber)
    case Number(v) => if v < 0.0 then Err(NegativeHours) else Ok(v)
  }

  function Lookup(raw: RawHours, f: HoursField): Result<Hours, CalcError> {
    if Key(f) in raw then ToDecimal(raw[Key(f)]) else Ok(0.0)
  }

  /** Coalesces the five fields to zero, failing on the first key or value it must not accept. */
  function ResolvedHours(raw: RawHours): Result<HoursLine, CalcError> {
    if !(raw.Keys <= KEYS) then Err(UnknownKey)
    else
      var r, o, v, s, h :=
        Lookup(raw, Regular), Lookup(raw, Overtime), Lookup(raw, Vacation), Lookup(raw, Sick), Lookup(raw, Holiday);
      if r.Err? then Err(r.error)
      else if o.Err? then Err(o.error)
      else if v.Err? then Err(v.error)
      else if s.Err? then Err(s.error)
      else if h.Err? then Err(h.error)
      else Ok(HoursLine(r.value, o.value, v.value, s.value, h.value))
  }

  function Gross(hours: HoursLine, employee: Employee): int {
    match employee.pay
    case Hourly(rate) => HourlyPay(rate, hours)
    case Salary(annual) =>
      Money((PeriodSalary(annual, employee.payPeriods) + LeavePay(annual, hours)) as real)
  }

  /** Overtime at one and a half, every other hour at straight time; rounded once. */
  function HourlyPay(rate: Cents, hours: HoursLine): int {
    var straight := hours.regular + hours.vacation + hours.sick + hours.holiday;
    Money(rate * straight + rate * 1.5 * hours.overtime)
  }

  function PeriodSalary(annual: Cents, p: PayPeriods): int {
    Money(annual / p as real)
  }

  /** Leave is paid at the implied hourly rate of a 2080-hour work year. */
  function LeavePay(annual: Cents, hours: HoursLine): int {
    Money((annual / 2080.0) * (hours.vacation + hours.sick + hours.holiday))
  }

  function SocialSecurity(gross: int, ytdSsWages: Cents): int {
    var remaining := SS_WAGE_BASE - ytdSsWages;
    var cap := if remaining < 0.0 then 0.0 else remaining;
    var taxable := if gross as real <= cap then gross as real else cap;
    Money(taxable * SS_RATE)
  }

  /** True when net plus every deduction no longer rebuilds gross. */
  predicate Drifts(gross: int, pretax401k: int, ficaSs: int, ficaMedicare: int, federal: int, net: int) {
    Money((net + pretax401k + ficaSs + ficaMedicare + federal) as real) != gross
  }

  function FederalOn(taxable: int, employee: Employee): int {
    Withholding(Money(taxable as real) as real, employee.payPeriods, employee.w4)
  }

  datatype Deductions = Deductions(pretax401k: int, ficaSs: int, ficaMedicare: int, federal: int, net: int)

  /** Everything after gross: the 401k share, FICA on gross, federal tax on gross less the 401k share, and net. */
  function Deduct(gross: int, employee: Employee, rate: Rate): Deductions {
    var pretax401k := Money(gross as real * rate);
    var ficaSs := SocialSecurity(gross, employee.ytdSsWages);
    var ficaMedicare := Money(gross as real * MEDICARE_RATE);
    var federal := FederalOn(gross - pretax401k, employee);
    var net := Money((gross - pretax401k - ficaSs - ficaMedicare - federal) as real);
    Deductions(pretax401k, ficaSs, ficaMedicare, federal, net)
  }

  function Calculate(raw: RawHours, employee: Employee, contributionOverride: Option<Rate>): Result<PaystubLineItem, CalcError>
  {
    var hours := ResolvedHours(raw);
    if hours.Err? then Err(hours.error)
    else
      var gross := Gross(hours.value, employee);
      var d := Deduct(gross, employee, EffectiveRate(employee, contributionOverride));
      if Drifts(gross, d.pretax401k, d.ficaSs, d.ficaMedicare, d.federal, d.net) then Err(ReconciliationDrift)
      else
        Ok(PaystubLineItem(employee.id, employee.fullName, hours.value, gross, d.pretax401k, d.ficaSs, d.ficaMedicare,
                           d.federal, None, d.net))
  }

  /** The run's override when the client gave one, else the stored default. */
  function EffectiveRate(employee: Employee, contributionOverride: Option<Rate>): Rate {
    if contributionOverride.Some? then contributionOverride.value else employee.retirementPct
  }

  // ---------------------------------------------------------------------------------------------
  // The backstop never fires
  // ---------------------------------------------------------------------------------------------

  /** Values the hours seam accepts: absent, empty, or a non-negative number. */
  predicate Acceptable(value: RawValue) {
    value.Missing? || value.EmptyText? || (value.Number? && value.v >= 0.0)
  }

  ghost predicate AcceptableHours(raw: RawHours) {
    raw.Keys <= KEYS && forall f: HoursField :: Key(f) in raw ==> Acceptable(raw[Key(f)])
  }

  /** A paystub line whose deductions and net rebuild its gross to the cent. */
  predicate Ties(item: PaystubLineItem) {
    item.gross == item.federal + item.ficaSs + item.ficaMedicare + item.pretax401k + item.net && item.state == None
  }

  /** What is wrong with a value of the hours mapping. */
  predicate Rejected(value: RawValue, error: CalcError) {
    match value
    case Boolean => error == WrongType
    case Float => error == WrongType
    case Garbage => error == NotANumber
    case Number(v) => v < 0.0 && error == NegativeHours
    case _ => false
  }

  lemma ResolvedExactly(raw: RawHours)
    ensures ResolvedHours(raw).Ok? <==> AcceptableHours(raw)
    ensures ResolvedHours(raw).Err? ==> ResolvedHours(raw).error != ReconciliationDrift
    ensures ResolvedHours(raw).Err? ==>
              if raw.Keys <= KEYS then exists f: HoursField :: Key(f) in raw && Rejected(raw[Key(f)], ResolvedHours(raw).error)
              else ResolvedHours(raw).error == UnknownKey
  {
    forall f: HoursField | Lookup(raw, f).Err? ensures Key(f) in raw && Rejected(raw[Key(f)], Lookup(raw, f).error) {
    }
    forall f: HoursField ensures Lookup(raw, f).Ok? <==> (Key(f) in raw ==> Acceptable(raw[Key(f)])) {
    }
    if AcceptableHours(raw) {
      assert Lookup(raw, Regular).Ok? && Lookup(raw, Overtime).Ok? && Lookup(raw, Vacation).Ok?;
      assert Lookup(raw, Sick).Ok? && Lookup(raw, Holiday).Ok?;
    } else if ResolvedHours(raw).Ok? {
      forall f: HoursField ensures Lookup(raw, f).Ok? {
        match f { case Regular => case Overtime => case Vacation => case Sick => case Holiday => }
      }
    }
  }

  lemma DeductTies(gross: int, employee: Employee, rate: Rate)
    ensures var d := Deduct(gross, employee, rate);
      && !Drifts(gross, d.pretax401k, d.ficaSs, d.ficaMedicare, d.federal, d.net)
      && gross == d.federal + d.ficaSs + d.ficaMedicare + d.pretax401k + d.net
  {
    var d := Deduct(gross, employee, rate);
    MoneyOfCents(gross - d.pretax401k - d.ficaSs - d.ficaMedicare - d.federal);
    MoneyOfCents(gross);
  }

  /** `calculate` fails exactly on unacceptable hours; it never trips its own backstop, and what it returns ties out. */
  lemma NeverDrifts(raw: RawHours, employee: Employee, contributionOverride: Option<Rate>)
    ensures Calculate(raw, employee, contributionOverride).Ok? <==> AcceptableHours(raw)
    ensures Calculate(raw, employee, contributionOverride) != Err(ReconciliationDrift)
    ensures Calculate(raw, employee, contributionOverride).Ok? ==> Ties(Calculate(raw, employee, contributionOverride).value)
  {
    ResolvedExactly(raw);
    var hours := ResolvedHours(raw);
    if hours.Ok? {
      DeductTies(Gross(hours.value, employee), employee, EffectiveRate(employee, contributionOverride));
    }
  }

  // ---------------------------------------------------------------------------------------------
  // Which base each deduction reads
  // ---------------------------------------------------------------------------------------------

  lemma NonNegativeMoney(x: real)
    requires x >= 0.0
    ensures Money(x) >= 0
  {
    MoneyMonotone(0.0, x);
    MoneyOfCents(0);
  }

  lemma ProductMonotone(x: real, y: real, z: real)
    requires x >= 0.0 && y <= z
    ensures x * y <= x * z
  {
  }

  lemma GrossNonNegative(hours: HoursLine, employee: Employee)
    ensures Gross(hours, employee) >= 0
  {
    match employee.pay
    case Hourly(rate) =>
      HourlyPayNonNegative(rate, hours);
    case Salary(annual) =>
      NonNegativeMoney(annual / employee.payPeriods as real);
      LeavePayNonNegative(annual, hours);
      MoneyOfCents(PeriodSalary(annual, employee.payPeriods) + LeavePay(annual, hours));
  }

  lemma HourlyPayNonNegative(rate: Cents, hours: HoursLine)
    ensures HourlyPay(rate, hours) >= 0
  {
    var straight := hours.regular + hours.vacation + hours.sick + hours.holiday;
    ProductMonotone(rate, 0.0, straight);
    ProductMonotone(rate, 0.0, 1.5 * hours.overtime);
    var pay := rate * straight + rate * 1.5 * hours.overtime;
    assert pay == rate * straight + rate * (1.5 * hours.overtime);
    NonNegativeMoney(pay);
    assert HourlyPay(rate, hours) == Money(pay);
  }

  lemma LeavePayNonNegative(annual: Cents, hours: HoursLine)
    ensures LeavePay(annual, hours) >= 0
  {
    ProductMonotone(annual / 2080.0, 0.0, hours.vacation + hours.sick + hours.holiday);
    NonNegativeMoney((annual / 2080.0) * (hours.vacation + hours.sick + hours.holiday));
  }

  /** Straight time plus time and a half, before rounding. */
  function ExactHourly(rate: Cents, hours: HoursLine): real {
    rate * (hours.regular + (hours.vacation + hours.sick + hours.holiday)) + 1.5 * rate * hours.overtime
  }

  /** The period's share of the salary plus leave at the implied hourly rate, before rounding. */
  function ExactSalary(annual: Cents, p: PayPeriods, hours: HoursLine): real {
    annual / p as real + annual / 2080.0 * (hours.vacation + hours.sick + hours.holiday)
  }

  lemma GrossOfHours(hours: HoursLine, employee: Employee)
    ensures match employee.pay
      case Hourly(rate) => ExactHourly(rate, hours) - 0.5 <= Gross(hours, employee) as real <= ExactHourly(rate, hours) + 0.5
      case Salary(annual) =>
        var exact := ExactSalary(annual, employee.payPeriods, hours);
        exact - 1.0 <= Gross(hours, employee) as real <= exact + 1.0
  {
    hide ExactHourly, ExactSalary, HourlyPay, PeriodSalary, LeavePay, Money;
    match employee.pay
    case Hourly(rate) =>
      HourlyNearExact(rate, hours);
    case Salary(annual) =>
      SalaryNearExact(annual, employee.payPeriods, hours);
      MoneyOfCents(PeriodSalary(annual, employee.payPeriods) + LeavePay(annual, hours));
  }

  lemma TimeAndAHalf(rate: real, overtime: real)
    ensures rate * 1.5 * overtime == 1.5 * rate * overtime
  {
  }

  lemma HourlyNearExact(rate: Cents, hours: HoursLine)
    ensures ExactHourly(rate, hours) - 0.5 <= HourlyPay(rate, hours) as real <= ExactHourly(rate, hours) + 0.5
  {
    var straight := hours.regular + hours.vacation + hours.sick + hours.holiday;
    var pay := rate * straight + rate * 1.5 * hours.overtime;
    assert HourlyPay(rate, hours) == Money(pay);
    MoneyNear(pay);
    hide Money, HourlyPay;
    TimeAndAHalf(rate, hours.overtime);
    assert pay == ExactHourly(rate, hours) by {
      assert straight == hours.regular + (hours.vacation + hours.sick + hours.holiday);
    }
  }

  lemma SalaryNearExact(annual: Cents, p: PayPeriods, hours: HoursLine)
    ensures var exact := ExactSalary(annual, p, hours);
      exact - 1.0 <= (PeriodSalary(annual, p) + LeavePay(annual, hours)) as real <= exact + 1.0
  {
    var share, leave := annual / p as real, (annual / 2080.0) * (hours.vacation + hours.sick + hours.holiday);
    assert PeriodSalary(annual, p) == Money(share) && LeavePay(annual, hours) == Money(leave);
    MoneyNear(share);
    MoneyNear(leave);
    ExactSalaryIs(annual, p, hours);
    hide *;
  }

  lemma ExactSalaryIs(annual: Cents, p: PayPeriods, hours: HoursLine)
    ensures ExactSalary(annual, p, hours) == annual / p as real + (annual / 2080.0) * (hours.vacation + hours.sick + hours.holiday)
  {
  }

  /** The largest part of gross that keeps the year's Social Security wages within the wage base. */
  ghost predicate TaxableUpToTheBase(taxable: real, gross: nat, ytdSsWages: real) {
    && 0.0 <= taxable <= gross as real
    && (taxable > 0.0 ==> ytdSsWages + taxable <= SS_WAGE_BASE)
    && (taxable < gross as real ==> ytdSsWages + taxable >= SS_WAGE_BASE)
  }

  lemma FicaOfDeductions(gross: nat, employee: Employee, rate: Rate) returns (taxable: real)
    ensures TaxableUpToTheBase(taxable, gross, employee.ytdSsWages)
    ensures var d := Deduct(gross, employee, rate);
      && 0.062 * taxable - 0.5 <= d.ficaSs as real <= 0.062 * taxable + 0.5
      && 0.0145 * gross as real - 0.5 <= d.ficaMedicare as real <= 0.0145 * gross as real + 0.5
  {
    hide FederalOn;
    var remaining := SS_WAGE_BASE - employee.ytdSsWages;
    var cap := if remaining < 0.0 then 0.0 else remaining;
    taxable := if gross as real <= cap then gross as real else cap;
    MoneyNear(taxable * SS_RATE);
    MoneyNear(gross as real * MEDICARE_RATE);
  }

  /** The 401k share of non-negative gross lies between zero and gross, and grows with the rate. */
  lemma ShareBounds(gross: nat, low: Rate, high: Rate)
    requires low <= high
    ensures 0 <= Money(gross as real * low) <= Money(gross as real * high) <= gross
  {
    ProductMonotone(gross as real, 0.0, low);
    ProductMonotone(gross as real, low, high);
    ProductMonotone(gross as real, high, 1.0);
    NonNegativeMoney(gross as real * low);
    MoneyMonotone(gross as real * low, gross as real * high);
    MoneyMonotone(gross as real * high, gross as real);
    MoneyOfCents(gross);
  }

  /** Federal tax falls by at most 37% of a larger 401k share plus three cents, and never rises by more than a cent. */
  lemma ShareAndFederal(less: nat, more: nat, employee: Employee)
    requires less <= more
    ensures FederalOn(less, employee) <= FederalOn(more, employee) + 1
    ensures FederalOn(more, employee) as real <= FederalOn(less, employee) as real + 0.37 * (more - less) as real + 3.0
  {
    MoneyOfCents(less);
    MoneyOfCents(more);
    var x, y := less as real, more as real;
    assert y - x == (more - less) as real;
    NeverFallsMoreThanACent(x, y, employee.payPeriods, employee.w4);
    SlopeAtMost37PercentPlusThreeCents(x, y, employee.payPeriods, employee.w4);
  }

  lemma DeductionsByShare(gross: nat, employee: Employee, low: Rate, high: Rate)
    requires low <= high
    ensures var a, b := Deduct(gross, employee, low), Deduct(gross, employee, high);
      var extra := b.pretax401k - a.pretax401k;
      && extra >= 0
      && a.ficaSs == b.ficaSs && a.ficaMedicare == b.ficaMedicare
      && b.federal <= a.federal + 1
      && a.net - extra - 1 <= b.net
      && b.net as real <= a.net as real - 0.63 * extra as real + 3.0
  {
    hide FederalOn, Money, SocialSecurity;
    ShareBounds(gross, low, high);
    DeductTies(gross, employee, low);
    DeductTies(gross, employee, high);
    CompareDeductions(gross, Deduct(gross, employee, low), Deduct(gross, employee, high), employee);
  }

  lemma CompareDeductions(gross: nat, a: Deductions, b: Deductions, employee: Employee)
    requires 0 <= a.pretax401k <= b.pretax401k <= gross
    requires a.federal == FederalOn(gross - a.pretax401k, employee) && b.federal == FederalOn(gross - b.pretax401k, employee)
    requires a.federal + a.pretax401k + a.net == b.federal + b.pretax401k + b.net
    ensures b.federal <= a.federal + 1
    ensures a.net - (b.pretax401k - a.pretax401k) - 1 <= b.net
    ensures b.net as real <= a.net as real - 0.63 * (b.pretax401k - a.pretax401k) as real + 3.0
  {
    hide FederalOn;
    ShareAndFederal(gross - b.pretax401k, gross - a.pretax401k, employee);
    NetGap(a, b);
  }

  lemma NetGap(a: Deductions, b: Deductions)
    requires a.federal + a.pretax401k + a.net == b.federal + b.pretax401k + b.net
    requires a.federal as real <= b.federal as real + 0.37 * (b.pretax401k - a.pretax401k) as real + 3.0
    ensures b.net as real <= a.net as real - 0.63 * (b.pretax401k - a.pretax401k) as real + 3.0
  {
    var extra := b.pretax401k - a.pretax401k;
    assert b.net == a.net + (a.federal - b.federal) - extra;
  }

  // ---------------------------------------------------------------------------------------------
  // The line that calculate returns
  // ---------------------------------------------------------------------------------------------

  /** Each part of a computed line, named; its gross is never negative. */
  lemma TheLine(raw: RawHours, employee: Employee, contributionOverride: Option<Rate>)
    requires AcceptableHours(raw)
    ensures Calculate(raw, employee, contributionOverride).Ok? && ResolvedHours(raw).Ok?
    ensures var item := Calculate(raw, employee, contributionOverride).value;
      && item.employeeId == employee.id && item.hours == ResolvedHours(raw).value
      && item.gross == Gross(ResolvedHours(raw).value, employee) >= 0
      && Deductions(item.pretax401k, item.ficaSs, item.ficaMedicare, item.federal, item.net) ==
         Deduct(item.gross, employee, EffectiveRate(employee, contributionOverride))
  {
    hide Gross, Deduct, Drifts, ResolvedHours, AcceptableHours;
    ResolvedExactly(raw);
    NeverDrifts(raw, employee, contributionOverride);
    GrossNonNegative(ResolvedHours(raw).value, employee);
  }

  /** Gross on the line is the exact value rounded once for hourly pay, and rounded twice for a salary. */
  lemma GrossNearExact(raw: RawHours, employee: Employee, contributionOverride: Option<Rate>)
    requires AcceptableHours(raw)
    ensures var r, hours := Calculate(raw, employee, contributionOverride), ResolvedHours(raw);
      && r.Ok? && hours.Ok?
      && match employee.pay
         case Hourly(rate) => ExactHourly(rate, hours.value) - 0.5 <= r.value.gross as real <= ExactHourly(rate, hours.value) + 0.5
         case Salary(annual) =>
           var exact := ExactSalary(annual, employee.payPeriods, hours.value);
           exact - 1.0 <= r.value.gross as real <= exact + 1.0
  {
    hide Calculate, Deduct, AcceptableHours, ResolvedHours, ExactHourly, ExactSalary, Gross;
    TheLine(raw, employee, contributionOverride);
    GrossOfHours(ResolvedHours(raw).value, employee);
  }

  /**
    On the line computed for any employee and hours, Social Security taxes gross up to the wage base
    and no further, and Medicare all of gross, whatever the 401k share.
   */
  lemma FicaOnGross(raw: RawHours, employee: Employee, contributionOverride: Option<Rate>) returns (taxable: real)
    requires AcceptableHours(raw)
    ensures var r := Calculate(raw, employee, contributionOverride);
      && r.Ok? && r.value.gross >= 0
      && TaxableUpToTheBase(taxable, r.value.gross, employee.ytdSsWages)
      && 0.062 * taxable - 0.5 <= r.value.ficaSs as real <= 0.062 * taxable + 0.5
      && 0.0145 * r.value.gross as real - 0.5 <= r.value.ficaMedicare as real <= 0.0145 * r.value.gross as real + 0.5
  {
    hide Calculate, Deduct, AcceptableHours, ResolvedHours, Gross;
    TheLine(raw, employee, contributionOverride);
    taxable := FicaOfDeductions(Calculate(raw, employee, contributionOverride).value.gross, employee,
                                EffectiveRate(employee, contributionOverride));
  }

  /** Within half a cent. */
  predicate ToTheCent(cents: int, exact: real) {
    exact - 0.5 <= cents as real <= exact + 0.5
  }

  /** Gross at this employee's own rate, or own salary, on the line's hours. */
  ghost predicate GrossIsOwn(item: PaystubLineItem, employee: Employee) {
    match employee.pay
    case Hourly(rate) => ToTheCent(item.gross, ExactHourly(rate, item.hours))
    case Salary(annual) =>
      var exact := ExactSalary(annual, employee.payPeriods, item.hours);
      exact - 1.0 <= item.gross as real <= exact + 1.0
  }

  /** The 401k share, before rounding. */
  function ExactShare(gross: int, rate: Rate): real {
    rate * gross as real
  }

  /** The share is the run's override where there is one, else the stored rate; federal tax is the worksheet on what is left of gross. */
  ghost predicate ShareAndTaxAreOwn(item: PaystubLineItem, employee: Employee, contributionOverride: Option<Rate>) {
    && (contributionOverride.Some? ==> ToTheCent(item.pretax401k, ExactShare(item.gross, contributionOverride.value)))
    && (contributionOverride.None? ==> ToTheCent(item.pretax401k, ExactShare(item.gross, employee.retirementPct)))
    && item.federal == Withholding((item.gross - item.pretax401k) as real, employee.payPeriods, employee.w4)
  }

  ghost predicate FicaIsOwn(item: PaystubLineItem, employee: Employee) {
    && item.gross >= 0
    && (exists taxable: real :: TaxableUpToTheBase(taxable, item.gross, employee.ytdSsWages) && ToTheCent(item.ficaSs, 0.062 * taxable))
    && ToTheCent(item.ficaMedicare, 0.0145 * item.gross as real)
  }

  /** Every amount of the line is this employee's own: rate or salary, retirement share, wage base and W-4. */
  ghost predicate PaysEmployee(item: PaystubLineItem, employee: Employee, contributionOverride: Option<Rate>) {
    && item.employeeId == employee.id
    && GrossIsOwn(item, employee)
    && FicaIsOwn(item, employee)
    && ShareAndTaxAreOwn(item, employee, contributionOverride)
    && Ties(item)
  }

  /** What `calculate` returns pays the employee it was given, on the hours it was given. */
  lemma LinePaysEmployee(raw: RawHours, employee: Employee, contributionOverride: Option<Rate>)
    requires AcceptableHours(raw)
    ensures var r := Calculate(raw, employee, contributionOverride); r.Ok? && PaysEmployee(r.value, employee, contributionOverride)
  {
    hide Calculate, Deduct, AcceptableHours, ResolvedHours, ExactHourly, ExactSalary, Gross, Withholding;
    TheLine(raw, employee, contributionOverride);
    NeverDrifts(raw, employee, contributionOverride);
    GrossNearExact(raw, employee, contributionOverride);
    var taxable := FicaOnGross(raw, employee, contributionOverride);
    ShareAndTax(Calculate(raw, employee, contributionOverride).value.gross, employee, EffectiveRate(employee, contributionOverride));
  }

  /** The name on the line plays no part. */
  lemma PaysUnderAnyName(item: PaystubLineItem, name: string, employee: Employee, contributionOverride: Option<Rate>)
    requires PaysEmployee(item, employee, contributionOverride)
    ensures PaysEmployee(item.(submittedName := name), employee, contributionOverride)
  {
    hide TaxableUpToTheBase, ToTheCent, Withholding, ExactHourly, ExactSalary, ExactShare;
  }

  lemma ShareAndTax(gross: nat, employee: Employee, rate: Rate)
    ensures var d := Deduct(gross, employee, rate);
      && ToTheCent(d.pretax401k, ExactShare(gross, rate))
      && d.federal == Withholding((gross - d.pretax401k) as real, employee.payPeriods, employee.w4)
  {
    hide Withholding, SocialSecurity;
    MoneyNear(gross as real * rate);
    MoneyOfCents(gross - Money(gross as real * rate));
  }

  /** One line against another that differs by a larger 401k share. */
  ghost predicate ShareMovesOnlyFederal(a: PaystubLineItem, b: PaystubLineItem) {
    var extra := b.pretax401k - a.pretax401k;
    && a.gross == b.gross
    && extra >= 0
    && a.ficaSs == b.ficaSs && a.ficaMedicare == b.ficaMedicare
    && b.federal <= a.federal + 1
    && a.net - extra - 1 <= b.net
    && b.net as real <= a.net as real - 0.63 * extra as real + 3.0
  }

  /**
    The 401k share reduces the federal base and no other. For the same employee and hours, a larger
    override leaves gross and FICA alone, raises federal tax by at most a cent, and lowers net by at
    least 63% of the extra share less three cents and at most that share plus one.
   */
  lemma ContributionTouchesOnlyFederal(raw: RawHours, employee: Employee, low: Rate, high: Rate)
    requires AcceptableHours(raw) && low <= high
    ensures var a, b := Calculate(raw, employee, Some(low)), Calculate(raw, employee, Some(high));
      a.Ok? && b.Ok? && ShareMovesOnlyFederal(a.value, b.value)
  {
    hide Calculate, Deduct, AcceptableHours, ResolvedHours, Gross;
    TheLine(raw, employee, Some(low));
    TheLine(raw, employee, Some(high));
    DeductionsByShare(Calculate(raw, employee, Some(low)).value.gross, employee, low, high);
  }

  /**
    Salaried leave is paid at the same rate whatever the pay frequency: of two lines for the same
    salary and hours under different frequencies, gross differs by exactly the two period salaries.
   */
  lemma LeavePayFrequencyIndependent(raw: RawHours, employee: Employee, p: PayPeriods, contributionOverride: Option<Rate>)
    requires AcceptableHours(raw) && employee.pay.Salary?
    ensures var a, b := Calculate(raw, employee, contributionOverride), Calculate(raw, employee.(payPeriods := p), contributionOverride);
      && a.Ok? && b.Ok?
      && a.value.gross - b.value.gross ==
         Money(employee.pay.annualSalary / employee.payPeriods as real) - Money(employee.pay.annualSalary / p as real)
  {
    hide Calculate, Deduct, AcceptableHours, ResolvedHours;
    TheLine(raw, employee, contributionOverride);
    TheLine(raw, employee.(payPeriods := p), contributionOverride);
    var annual, hours := employee.pay.annualSalary, ResolvedHours(raw).value;
    MoneyOfCents(PeriodSalary(annual, employee.payPeriods) + LeavePay(annual, hours));
    MoneyOfCents(PeriodSalary(annual, p) + LeavePay(annual, hours));
  }
}
