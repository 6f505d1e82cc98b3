/** One pass of the shared gate path: reconcile, detect, backfill, validate, decide, compute. */
module Orchestrator {
  import opened Prelude
  import opened Contracts
  import opened ReconcileNames
  import opened Validate
  import Decide
  import opened CalcEngine
  import opened AliasLearning
  import opened Backfill

  // ---------------------------------------------------------------------------------------------
  // Line items
  // ---------------------------------------------------------------------------------------------

  datatype StageError = IntegrityViolation(id: EmployeeId) | CalcFailed(error: CalcError)

  function RawOf(hours: Option<Hours>): RawValue {
    if hours.Some? then Number(hours.value) else Missing
  }

  /** The mapping the calculation engine is handed for one extracted employee. */
  function HoursMapping(e: ExtractedEmployee): RawHours {
    map["hours_regular" := RawOf(e.regular), "hours_overtime" := RawOf(e.overtime), "hours_vacation" := RawOf(e.vacation),
        "hours_sick" := RawOf(e.sick), "hours_holiday" := RawOf(e.holiday)]
  }

  /** Submitted name to match; a later match for the same name wins. */
  function MatchByName(matches: seq<NameMatch>): map<string, NameMatch> {
    if matches == [] then map[]
    else
      var m := matches[|matches| - 1];
      MatchByName(matches[..|matches| - 1])[m.submittedName := m]
  }

  /** Nothing for a name without an employee, an error for an id the roster does not hold, else one line. */
  function LineFor(e: ExtractedEmployee, byName: map<string, NameMatch>, roster: Roster): Result<seq<PaystubLineItem>, StageError> {
    if e.submittedName !in byName || byName[e.submittedName].matched.None? then Ok([])
    else
      var id := byName[e.submittedName].matched.value;
      var employee := EmployeeWithId(id, roster);
      if employee.None? then Err(IntegrityViolation(id))
      else
        var item := Calculate(HoursMapping(e), employee.value, e.contribution401k);
        if item.Err? then Err(CalcFailed(item.error)) else Ok([item.value.(submittedName := e.submittedName)])
  }

  function LineItems(extracted: Extracted, matches: seq<NameMatch>, roster: Roster): Result<seq<PaystubLineItem>, StageError> {
    if extracted == [] then Ok([])
    else
      var before := LineItems(extracted[..|extracted| - 1], matches, roster);
      if before.Err? then before
      else
        var line := LineFor(extracted[|extracted| - 1], MatchByName(matches), roster);
        if line.Err? then line else Ok(before.value + line.value)
  }

  method ComputeLineItems(extracted: Extracted, matches: seq<NameMatch>, roster: Roster)
    returns (r: Result<seq<PaystubLineItem>, StageError>)
    ensures r == LineItems(extracted, matches, roster)
  {
    var byName := MatchByName(matches);
    var items: seq<PaystubLineItem> := [];
    for i := 0 to |extracted|
      invariant LineItems(extracted[..i], matches, roster) == Ok(items)
    {
      assert extracted[..i + 1][..i] == extracted[..i];
      var line := LineFor(extracted[i], byName, roster);
      if line.Err? {
        FailureIsFinal(extracted, matches, roster, i + 1);
        return line;
      }
      items := items + line.value;
    }
    assert extracted[..|extracted|] == extracted;
    r := Ok(items);
  }

  lemma {:induction false} FailureIsFinal(extracted: Extracted, matches: seq<NameMatch>, roster: Roster, n: nat)
    requires n <= |extracted| && LineItems(extracted[..n], matches, roster).Err?
    ensures LineItems(extracted, matches, roster) == LineItems(extracted[..n], matches, roster)
  {
    if n == |extracted| {
      assert extracted[..n] == extracted;
    } else {
      var last := |extracted| - 1;
      assert extracted[..last][..n] == extracted[..n];
      FailureIsFinal(extracted[..last], matches, roster, n);
    }
  }

  /** Match k is the last one for the name. */
  ghost predicate LastMatch(matches: seq<NameMatch>, name: string, k: nat) {
    k < |matches| && matches[k].submittedName == name && forall j | k < j < |matches| :: matches[j].submittedName != name
  }

  lemma {:induction false} MatchByNameMeans(matches: seq<NameMatch>, name: string)
    ensures name in MatchByName(matches) ==> exists k: nat :: LastMatch(matches, name, k)
    ensures forall k: nat | LastMatch(matches, name, k) :: name in MatchByName(matches) && MatchByName(matches)[name] == matches[k]
  {
    if matches != [] {
      var n := |matches| - 1;
      MatchByNameMeans(matches[..n], name);
      if matches[n].submittedName == name {
        assert LastMatch(matches, name, n);
      } else {
        forall k: nat ensures LastMatch(matches, name, k) <==> LastMatch(matches[..n], name, k) {
          assert forall j | 0 <= j < n :: matches[..n][j] == matches[j];
        }
      }
    }
  }

  /** The last match for the employee's name names an employee the roster does not hold. */
  ghost predicate OffRoster(e: ExtractedEmployee, matches: seq<NameMatch>, roster: Roster) {
    exists k: nat :: LastMatch(matches, e.submittedName, k) && matches[k].matched.Some? && forall x <- roster :: x.id != matches[k].matched.value
  }

  /** Over any matches the lines fail exactly when some employee's last match is off the roster, and for no other reason. */
  lemma {:induction false} LinesFailExactly(extracted: Extracted, matches: seq<NameMatch>, roster: Roster)
    ensures LineItems(extracted, matches, roster).Err? <==> exists e <- extracted :: OffRoster(e, matches, roster)
    ensures var r := LineItems(extracted, matches, roster);
      r.Err? ==> r.error.IntegrityViolation? && forall x <- roster :: x.id != r.error.id
  {
    hide LineFor, OffRoster;
    if extracted != [] {
      var n := |extracted| - 1;
      LinesFailExactly(extracted[..n], matches, roster);
      LineFails(extracted[n], matches, roster);
      assert forall e :: e in extracted <==> e in extracted[..n] || e == extracted[n];
    }
  }

  lemma LineFails(e: ExtractedEmployee, matches: seq<NameMatch>, roster: Roster)
    ensures var r := LineFor(e, MatchByName(matches), roster);
      && (r.Err? <==> OffRoster(e, matches, roster))
      && (r.Err? ==> r.error.IntegrityViolation? && forall x <- roster :: x.id != r.error.id)
  {
    hide Calculate, HoursMapping, MatchByName;
    MatchByNameMeans(matches, e.submittedName);
    forall employee: Employee ensures Calculate(HoursMapping(e), employee, e.contribution401k).Ok? {
      HoursCarried(e, employee);
    }
  }

  // ---------------------------------------------------------------------------------------------
  // The stages
  // ---------------------------------------------------------------------------------------------

  /** What one pass reads besides the extraction. */
  datatype Context = Context(
    norm: Normalizer,
    roster: Roster,
    snapshot: Option<Extracted>,
    priorMatches: Option<seq<NameMatch>>,
    backfillSkip: set<Pair>,
    suppressDetection: set<Pair>,
    overrides: map<string, IdText>,
    candidates: AliasCandidates)

  /** What one pass persists: the backfilled extraction, the decision with its inputs, and the lines of a process run. */
  datatype Stages = Stages(
    extracted: Extracted,
    matches: seq<NameMatch>,
    changes: seq<HoursChange>,
    issues: seq<ValidationIssue>,
    decision: Decide.Decision,
    items: Option<seq<PaystubLineItem>>)

  function Matches(c: Context, extracted: Extracted): (matches: seq<NameMatch>)
    ensures |matches| == |extracted|
  {
    Reconcile(c.norm, Names(extracted), c.roster, c.overrides)
  }

  /** The prior matches all three cross-round consumers share: bridged when there is a snapshot. */
  function SharedPrior(c: Context, extracted: Extracted): Option<seq<NameMatch>> {
    if c.snapshot.None? then c.priorMatches
    else ConfirmedPrior(c.norm, c.priorMatches, Matches(c, extracted), c.candidates, c.roster)
  }

  function RawDrops(c: Context, extracted: Extracted): seq<RawFieldDrop> {
    if c.snapshot.None? then []
    else FieldRegressions(c.snapshot.value, extracted, SharedPrior(c, extracted), Matches(c, extracted))
  }

  function Filled(c: Context, extracted: Extracted): (filled: Extracted)
    ensures |filled| == |extracted|
  {
    Backfilled(extracted, c.snapshot, SharedPrior(c, extracted), Matches(c, extracted), c.backfillSkip)
  }

  function Gate(c: Context, extracted: Extracted): Decide.Decision {
    var matches := Matches(c, extracted);
    Decide.DecisionFor(Filled(c, extracted), matches,
                       Issues(Filled(c, extracted), c.roster, matches, c.suppressDetection, RawDrops(c, extracted)))
  }

  /** Detection reads the raw extraction; validation, the gate and the lines read the backfilled one. */
  function StagesOf(c: Context, extracted: Extracted): Result<Stages, StageError> {
    var matches, filled := Matches(c, extracted), Filled(c, extracted);
    var changes :=
      if c.snapshot.None? then [] else HoursChanges(c.snapshot.value, extracted, SharedPrior(c, extracted), matches);
    var issues := Issues(filled, c.roster, matches, c.suppressDetection, RawDrops(c, extracted));
    var decision := Gate(c, extracted);
    if !decision.process then Ok(Stages(filled, matches, changes, issues, decision, None))
    else
      var items := LineItems(filled, matches, c.roster);
      if items.Err? then Err(items.error) else Ok(Stages(filled, matches, changes, issues, decision, Some(items.value)))
  }

  method RunStages(c: Context, submitted: Extracted) returns (r: Result<Stages, StageError>)
    ensures r == StagesOf(c, submitted)
  {
    var extracted := submitted;
    var matches := ReconcileNames.ReconcileNames(c.norm, Names(extracted), c.roster, c.overrides);
    var drops: seq<RawFieldDrop> := [];
    var changes: seq<HoursChange> := [];
    if c.snapshot.Some? {
      var prior := ConfirmedPriorMatches(c.norm, c.priorMatches, matches, c.candidates, c.roster);
      drops := DetectFieldRegression(c.snapshot.value, extracted, prior, matches);
      changes := DetectHoursChanges(c.snapshot.value, extracted, prior, matches);
      extracted := BackfillExtracted(extracted, c.snapshot, prior, matches, c.backfillSkip);
    }
    var issues := Validate.Validate(extracted, c.roster, matches, c.suppressDetection, drops);
    var decision := Decide.Decide(extracted, matches, issues);
    if decision.process {
      var items := ComputeLineItems(extracted, matches, c.roster);
      if items.Err? {
        return Err(items.error);
      }
      return Ok(Stages(extracted, matches, changes, issues, decision, Some(items.value)));
    }
    r := Ok(Stages(extracted, matches, changes, issues, decision, None));
  }

  // ---------------------------------------------------------------------------------------------
  // The resolver's output as a map of identities
  // ---------------------------------------------------------------------------------------------

  /** Over the resolver's own output, a name leads to the id it resolves to. */
  lemma {:induction false} ReconciledIds(norm: Normalizer, names: seq<string>, roster: Roster, overrides: map<string, IdText>, i: nat)
    requires i < |names|
    ensures var ids, m := NameToId(Reconcile(norm, names, roster, overrides)), ReconcileOne(norm, names[i], roster, overrides);
      (names[i] in ids <==> m.resolved) && (m.resolved ==> ids[names[i]] == m.matched.value)
  {
    hide ReconcileOne;
    var n := |names| - 1;
    var all := Reconcile(norm, names, roster, overrides);
    assert all[..n] == Reconcile(norm, names[..n], roster, overrides);
    NameKept(norm, names[n], roster, overrides);
    if i < n {
      ReconciledIds(norm, names[..n], roster, overrides, i);
    } else if !ReconcileOne(norm, names[n], roster, overrides).resolved {
      OthersDoNot(norm, names[..n], roster, overrides, names[n]);
    }
  }

  lemma NameKept(norm: Normalizer, name: string, roster: Roster, overrides: map<string, IdText>)
    ensures ReconcileOne(norm, name, roster, overrides).submittedName == name
  {
  }

  lemma {:induction false} OthersDoNot(norm: Normalizer, names: seq<string>, roster: Roster, overrides: map<string, IdText>, name: string)
    requires !ReconcileOne(norm, name, roster, overrides).resolved
    ensures name !in NameToId(Reconcile(norm, names, roster, overrides))
  {
    hide ReconcileOne;
    if names != [] {
      var n := |names| - 1;
      assert Reconcile(norm, names, roster, overrides)[..n] == Reconcile(norm, names[..n], roster, overrides);
      OthersDoNot(norm, names[..n], roster, overrides, name);
      NameKept(norm, names[n], roster, overrides);
    }
  }

  // ---------------------------------------------------------------------------------------------
  // Processing pays everyone once
  // ---------------------------------------------------------------------------------------------

  function PaidHours(v: Option<Hours>): Hours {
    if v.Some? then v.value else 0.0
  }

  /** What `calculate` computes for this roster employee on these hours, under the submitted name. */
  ghost predicate CalculatedFor(item: PaystubLineItem, e: ExtractedEmployee, employee: Employee) {
    && Calculate(HoursMapping(e), employee, e.contribution401k) == Ok(item.(submittedName := employee.fullName))
    && PaysEmployee(item, employee, e.contribution401k)
  }

  /** The line of one extracted employee: their own hours with silence read as zero, paid as the matched roster employee is paid. */
  ghost predicate LineOf(item: PaystubLineItem, e: ExtractedEmployee, m: NameMatch, roster: Roster) {
    && m.matched == Some(item.employeeId)
    && item.employeeId in RosterIds(roster)
    && item.submittedName == e.submittedName
    && (forall f: HoursField :: item.hours.Get(f) == PaidHours(e.Get(f)))
    && exists employee <- roster :: employee.id == item.employeeId && CalculatedFor(item, e, employee)
  }

  lemma MappingFaithful(e: ExtractedEmployee)
    ensures AcceptableHours(HoursMapping(e))
    ensures forall f: HoursField :: Lookup(HoursMapping(e), f) == Ok(PaidHours(e.Get(f)))
  {
    var raw := HoursMapping(e);
    assert raw.Keys == KEYS;
    forall f: HoursField ensures Key(f) in raw && raw[Key(f)] == RawOf(e.Get(f)) {
      match f case Regular => case Overtime => case Vacation => case Sick => case Holiday =>
    }
  }

  lemma HoursCarried(e: ExtractedEmployee, employee: Employee)
    ensures var r := Calculate(HoursMapping(e), employee, e.contribution401k);
      && r.Ok? && r.value.employeeId == employee.id && r.value.submittedName == employee.fullName
      && forall f: HoursField :: r.value.hours.Get(f) == PaidHours(e.Get(f))
  {
    hide Deduct, Gross, Drifts, Ties, HoursMapping, Lookup, AcceptableHours;
    MappingFaithful(e);
    NeverDrifts(HoursMapping(e), employee, e.contribution401k);
    var hours := ResolvedHours(HoursMapping(e)).value;
    forall f: HoursField ensures hours.Get(f) == PaidHours(e.Get(f)) {
      assert Lookup(HoursMapping(e), f) == Ok(PaidHours(e.Get(f)));
      match f case Regular => case Overtime => case Vacation => case Sick => case Holiday =>
    }
  }

  lemma {:induction false} MatchByNameUnique(matches: seq<NameMatch>, i: nat)
    requires i < |matches| && Decide.DistinctNames(matches)
    ensures matches[i].submittedName in MatchByName(matches) && MatchByName(matches)[matches[i].submittedName] == matches[i]
  {
    var n := |matches| - 1;
    if i < n {
      MatchByNameUnique(matches[..n], i);
    }
  }

  lemma LineForResolved(e: ExtractedEmployee, m: NameMatch, matches: seq<NameMatch>, roster: Roster)
    requires e.submittedName in MatchByName(matches) && MatchByName(matches)[e.submittedName] == m
    requires m.resolved && m.matched.value in RosterIds(roster)
    ensures var r := LineFor(e, MatchByName(matches), roster); r.Ok? && |r.value| == 1 && LineOf(r.value[0], e, m, roster)
  {
    var employee := EmployeeWithId(m.matched.value, roster);
    assert employee.Some? by {
      var x :| x in roster && x.id == m.matched.value;
    }
    hide Calculate, HoursMapping, PaysEmployee;
    HoursCarried(e, employee.value);
    LinePaid(e, employee.value);
  }

  lemma LinePaid(e: ExtractedEmployee, employee: Employee)
    ensures var r := Calculate(HoursMapping(e), employee, e.contribution401k);
      r.Ok? && PaysEmployee(r.value.(submittedName := e.submittedName), employee, e.contribution401k)
  {
    hide Calculate, HoursMapping, AcceptableHours, PaysEmployee;
    MappingFaithful(e);
    LinePaysEmployee(HoursMapping(e), employee, e.contribution401k);
    PaysUnderAnyName(Calculate(HoursMapping(e), employee, e.contribution401k).value, e.submittedName, employee, e.contribution401k);
  }

  ghost predicate Payable(extracted: Extracted, matches: seq<NameMatch>, roster: Roster) {
    && |extracted| == |matches|
    && Decide.OneToOne(matches)
    && forall i | 0 <= i < |extracted| ::
         && matches[i].submittedName == extracted[i].submittedName
         && matches[i].resolved && matches[i].matched.value in RosterIds(roster)
  }

  lemma {:induction false} OneLineEach(extracted: Extracted, matches: seq<NameMatch>, roster: Roster, n: nat)
    requires Payable(extracted, matches, roster) && n <= |extracted|
    ensures var r := LineItems(extracted[..n], matches, roster);
      r.Ok? && |r.value| == n && forall i | 0 <= i < n :: LineOf(r.value[i], extracted[i], matches[i], roster)
  {
    hide LineFor, LineOf, RosterIds;
    if n > 0 {
      OneLineEach(extracted, matches, roster, n - 1);
      assert extracted[..n][..n - 1] == extracted[..n - 1];
      MatchByNameUnique(matches, n - 1);
      LineForResolved(extracted[n - 1], matches[n - 1], matches, roster);
    }
  }

  /** Process on the resolver's own output makes the extraction payable. */
  lemma ProcessIsPayable(c: Context, extracted: Extracted)
    requires Gate(c, extracted).process
    ensures Payable(Filled(c, extracted), Matches(c, extracted), c.roster)
  {
    var matches, filled := Matches(c, extracted), Filled(c, extracted);
    Decide.ProcessExactly(filled, matches, Issues(filled, c.roster, matches, c.suppressDetection, RawDrops(c, extracted)));
    SameNames(extracted, c.snapshot, SharedPrior(c, extracted), matches, c.backfillSkip);
    forall i | 0 <= i < |filled|
      ensures matches[i].submittedName == filled[i].submittedName
      ensures matches[i].resolved && matches[i].matched.value in RosterIds(c.roster)
    {
      assert matches[i] in matches;
      assert Names(filled)[i] == Names(extracted)[i];
      ResolvedOnRoster(c.norm, Names(extracted)[i], c.roster, c.overrides);
    }
  }

  /**
    The pass never fails. When the gate says process there is exactly one line per extracted
    employee, in order, each for a different roster employee, paying that employee's own
    backfilled hours and tying out to the cent.
   */
  lemma ProcessPaysEveryoneOnce(c: Context, extracted: Extracted)
    ensures StagesOf(c, extracted).Ok?
    ensures var s := StagesOf(c, extracted).value;
      && (s.items.Some? <==> s.decision.process)
      && |s.extracted| == |s.matches| == |extracted|
      && (s.decision.process ==>
            && |s.items.value| == |extracted|
            && (forall i | 0 <= i < |extracted| :: LineOf(s.items.value[i], s.extracted[i], s.matches[i], c.roster))
            && (forall i, j | 0 <= i < j < |extracted| :: s.items.value[i].employeeId != s.items.value[j].employeeId))
  {
    hide LineItems, Gate, Filled, Ties, RosterIds, Issues;
    if Gate(c, extracted).process {
      var filled, matches := Filled(c, extracted), Matches(c, extracted);
      ProcessIsPayable(c, extracted);
      assert filled[..|filled|] == filled;
      OneLineEach(filled, matches, c.roster, |filled|);
    }
  }

  /** The matches of a pass are the resolver's, so the roster employee behind a name is the one with the matched id. */
  lemma EmployeeForMatch(c: Context, x: Extracted, i: nat)
    requires i < |x|
    ensures var m, who := Matches(c, x)[i], EmployeeFor(x[i].submittedName, Matches(c, x), c.roster);
      if m.matched.Some? then who.Some? && who.value in c.roster && who.value.id == m.matched.value else who.None?
  {
    hide EmployeeFor, ReconcileOne;
    var matches, name := Matches(c, x), x[i].submittedName;
    NameKept(c.norm, name, c.roster, c.overrides);
    forall m <- matches | m.submittedName == name ensures m.matched == matches[i].matched {
      var k :| 0 <= k < |matches| && matches[k] == m;
      NameKept(c.norm, x[k].submittedName, c.roster, c.overrides);
    }
    EmployeeForIs(name, matches, c.roster, i);
    MatchOnRoster(c, x, i);
  }

  lemma MatchOnRoster(c: Context, x: Extracted, i: nat)
    requires i < |x|
    ensures Matches(c, x)[i].matched.Some? ==> exists e <- c.roster :: e.id == Matches(c, x)[i].matched.value
  {
    ResolvedOnRoster(c.norm, x[i].submittedName, c.roster, c.overrides);
  }

  /** Backfill leaves the name and the 401k override alone. */
  lemma FilledKeeps(c: Context, x: Extracted, i: nat)
    requires i < |x|
    ensures Filled(c, x)[i].submittedName == x[i].submittedName && Filled(c, x)[i].contribution401k == x[i].contribution401k
  {
  }

  /** Employee i of the pass is this roster employee. */
  ghost predicate IsEmployee(c: Context, x: Extracted, i: nat, who: Employee)
    requires i < |x|
  {
    who in c.roster && Matches(c, x)[i].matched == Some(who.id)
  }

  /** Hourly, and paid for no field at all. */
  ghost predicate WithoutHours(who: Employee, e: ExtractedEmployee) {
    who.pay.Hourly? && forall f: HoursField :: !IsPaid(e.Get(f))
  }

  /** Paid weekly with more than forty regular hours, or biweekly with more than eighty, and no paid overtime. */
  ghost predicate WithoutSplit(who: Employee, e: ExtractedEmployee) {
    && !IsPaid(e.overtime) && e.regular.Some?
    && ((who.payPeriods == 52 && e.regular.value > 40.0) || (who.payPeriods == 26 && e.regular.value > 80.0))
  }

  lemma FlagsMean(c: Context, x: Extracted, i: nat)
    requires i < |x|
    ensures var e, matches := Filled(c, x)[i], Matches(c, x);
      && (HourlyWithoutHours(e, matches, c.roster) <==> exists who :: IsEmployee(c, x, i, who) && WithoutHours(who, e))
      && (OverFullTimeWithoutSplit(e, matches, c.roster) <==> exists who :: IsEmployee(c, x, i, who) && WithoutSplit(who, e))
  {
    hide Filled, Matches, EmployeeFor;
    FilledKeeps(c, x, i);
    EmployeeForMatch(c, x, i);
    var e, who := Filled(c, x)[i], EmployeeFor(x[i].submittedName, Matches(c, x), c.roster);
    if who.Some? {
      assert IsEmployee(c, x, i, who.value) && forall w :: IsEmployee(c, x, i, w) ==> w == who.value;
    }
    FlagsAgree(e, Matches(c, x), c.roster);
    hide OverFullTimeWithoutSplit;
  }

  /**
    A pass stores an issue of a missing field exactly for an employee matched to an hourly roster employee
    and paid for no field, on regular hours, and for one matched to a roster employee paid weekly with more
    than forty regular hours, or biweekly with more than eighty, and no paid overtime, on overtime.
   */
  lemma MissingExactly(c: Context, x: Extracted, issue: ValidationIssue)
    requires issue.kind == MissingField && StagesOf(c, x).Ok?
    ensures var s := StagesOf(c, x).value;
      issue in s.issues <==>
      exists i, who :: 0 <= i < |x| && i < |s.extracted| && x[i].submittedName == issue.submittedName && IsEmployee(c, x, i, who) &&
        match issue.field
        case Regular => WithoutHours(who, s.extracted[i])
        case Overtime => WithoutSplit(who, s.extracted[i])
        case _ => false
  {
    var matches, filled := Matches(c, x), Filled(c, x);
    StoredIssues(c, x);
    hide Filled, RawDrops, Issues, Matches, StagesOf, IsEmployee, WithoutHours, WithoutSplit, HourlyWithoutHours, OverFullTimeWithoutSplit;
    MissingRaised(filled, c.roster, matches, c.suppressDetection, RawDrops(c, x), issue);
    forall i | 0 <= i < |x|
      ensures filled[i].submittedName == x[i].submittedName && filled[i] in filled
      ensures HourlyWithoutHours(filled[i], matches, c.roster) <==> exists who :: IsEmployee(c, x, i, who) && WithoutHours(who, filled[i])
      ensures OverFullTimeWithoutSplit(filled[i], matches, c.roster) <==> exists who :: IsEmployee(c, x, i, who) && WithoutSplit(who, filled[i])
    {
      FilledKeeps(c, x, i);
      FlagsMean(c, x, i);
    }
  }

  lemma StoredIssues(c: Context, x: Extracted)
    requires StagesOf(c, x).Ok?
    ensures StagesOf(c, x).value.extracted == Filled(c, x)
    ensures StagesOf(c, x).value.issues == Issues(Filled(c, x), c.roster, Matches(c, x), c.suppressDetection, RawDrops(c, x))
  {
    hide Filled, RawDrops, Issues, Matches, Gate, LineItems;
  }

  /** A pass stores a regression exactly for a drop on the raw extraction whose employee and field were not already answered for. */
  lemma RegressionExactly(c: Context, x: Extracted, issue: ValidationIssue)
    requires issue.kind == FieldRegression && StagesOf(c, x).Ok?
    ensures issue in StagesOf(c, x).value.issues <==>
            exists d <- RawDrops(c, x), id :: d.submittedName == issue.submittedName && d.field == issue.field
              && LastMeans(Matches(c, x), d.submittedName, id) && Pair(id, d.field) !in c.suppressDetection
  {
    var matches, filled := Matches(c, x), Filled(c, x);
    var ids := NameToId(matches);
    StoredIssues(c, x);
    hide Filled, RawDrops, LacksHours, LacksOvertimeSplit, Matches, StagesOf, NameToId, LastMeans;
    RegressionRaised(RawDrops(c, x), ids, c.suppressDetection, issue);
    InMissingIssues(filled, Regular, e => LacksHours(e, matches, c.roster), issue);
    InMissingIssues(filled, Overtime, e => LacksOvertimeSplit(e, matches, c.roster), issue);
    forall name, id ensures name in ids && ids[name] == id <==> LastMeans(matches, name, id) {
      NameToIdMeans(matches, name, id);
    }
  }

  /**
    What a pass decides is on its own record: it processes exactly when somebody was extracted, every match is
    resolved, no name and no employee comes twice, and not one issue is stored.
   */
  lemma ProcessOnRecord(c: Context, x: Extracted)
    requires StagesOf(c, x).Ok?
    ensures var s := StagesOf(c, x).value;
      s.decision.process <==> x != [] && (forall m <- s.matches :: m.resolved) && Decide.OneToOne(s.matches) && s.issues == []
  {
    hide Filled, RawDrops, Issues, LineItems, ReconcileOne;
    var filled, matches := Filled(c, x), Matches(c, x);
    Decide.ProcessExactly(filled, matches, StagesOf(c, x).value.issues);
    MatchesOneForOne(c, x);
  }

  lemma MatchesOneForOne(c: Context, x: Extracted)
    ensures Names(Filled(c, x)) == Decide.MatchNames(Matches(c, x))
  {
    hide Filled, ReconcileOne;
    forall i | 0 <= i < |x| ensures Names(Filled(c, x))[i] == Decide.MatchNames(Matches(c, x))[i] {
      FilledKeeps(c, x, i);
      NameKept(c.norm, x[i].submittedName, c.roster, c.overrides);
    }
  }

  // ---------------------------------------------------------------------------------------------
  // Nothing is carried forward unasked
  // ---------------------------------------------------------------------------------------------

  /** Without repeated employees, each one is the keyed employee of its own id. */
  lemma KeyedAtOwnId(extracted: Extracted, matches: seq<NameMatch>, roster: Roster, i: nat)
    requires Payable(extracted, matches, roster) && i < |extracted|
    ensures var ids := NameToId(matches);
      && extracted[i].submittedName in ids && ids[extracted[i].submittedName] == matches[i].matched.value
      && matches[i].matched.value in KeyedById(extracted, ids)
      && KeyedById(extracted, ids)[matches[i].matched.value] == extracted[i]
  {
    var ids := NameToId(matches);
    forall j | 0 <= j < |extracted|
      ensures extracted[j].submittedName in ids && ids[extracted[j].submittedName] == matches[j].matched.value
    {
      NameToIdUnique(matches, j);
    }
    KeyedComplete(extracted, ids, i);
  }

  lemma {:induction false} NameToIdUnique(matches: seq<NameMatch>, i: nat)
    requires i < |matches| && matches[i].resolved && Decide.DistinctNames(matches)
    ensures matches[i].submittedName in NameToId(matches) && NameToId(matches)[matches[i].submittedName] == matches[i].matched.value
  {
    var n := |matches| - 1;
    if i < n {
      NameToIdUnique(matches[..n], i);
    }
  }

  /** Payability is about names and matches, so the raw extraction is payable when the backfilled one is. */
  lemma RawPayable(c: Context, extracted: Extracted)
    requires Payable(Filled(c, extracted), Matches(c, extracted), c.roster)
    ensures Payable(extracted, Matches(c, extracted), c.roster)
  {
    var filled := Filled(c, extracted);
    SameNames(extracted, c.snapshot, SharedPrior(c, extracted), Matches(c, extracted), c.backfillSkip);
    assert |filled| == |extracted|;
    forall i | 0 <= i < |extracted| ensures filled[i].submittedName == extracted[i].submittedName {
      assert Names(filled)[i] == Names(extracted)[i];
    }
  }

  /** What the snapshot holds for an employee's field, under the prior matches all consumers share. */
  function SnapshotHours(c: Context, x: Extracted, p: Pair): Option<Hours> {
    if c.snapshot.None? then None
    else
      var keyed := SnapshotById(c.snapshot.value, SharedPrior(c, x));
      if p.id in keyed then keyed[p.id].Get(p.field) else None
  }

  lemma NoPriorNoSnapshot(snapshot: Extracted, prior: Option<seq<NameMatch>>, id: EmployeeId)
    requires id in SnapshotById(snapshot, prior)
    ensures prior.Some?
  {
    KeyedSound(snapshot, NameToId(if prior.Some? then prior.value else []), id);
  }

  /** Snapshot pay that the raw extraction of a payable round lacks is a raw drop of that employee. */
  lemma LostPayIsADrop(c: Context, extracted: Extracted, i: nat, f: HoursField)
    requires i < |extracted| && Payable(extracted, Matches(c, extracted), c.roster)
    requires IsPaid(SnapshotHours(c, extracted, Pair(Matches(c, extracted)[i].matched.value, f))) && !IsPaid(extracted[i].Get(f))
    ensures exists d <- RawDrops(c, extracted) :: d.submittedName == extracted[i].submittedName && d.field == f
  {
    hide Matches, SharedPrior, KeyedById, NameToId, FieldRegressions;
    var matches, prior := Matches(c, extracted), SharedPrior(c, extracted);
    KeyedAtOwnId(extracted, matches, c.roster, i);
    NoPriorNoSnapshot(c.snapshot.value, prior, matches[i].matched.value);
    var o := SnapshotById(c.snapshot.value, prior)[matches[i].matched.value];
    var d := RawFieldDrop(extracted[i].submittedName, f, o.Get(f).value, extracted[i].Get(f));
    assert Dropped(o, extracted[i], d);
    DropReported(c.snapshot.value, extracted, prior.value, matches, d);
  }

  /** If the gate says process, pay the snapshot held and the extraction lacks was answered for: its pair is suppressed. */
  lemma NoPaidHourVanishesUnanswered(c: Context, extracted: Extracted, i: nat, f: HoursField)
    requires i < |extracted| && Gate(c, extracted).process
    requires var m := Matches(c, extracted)[i];
      m.matched.Some? && IsPaid(SnapshotHours(c, extracted, Pair(m.matched.value, f))) && !IsPaid(extracted[i].Get(f))
    ensures Pair(Matches(c, extracted)[i].matched.value, f) in c.suppressDetection
  {
    hide SnapshotHours, KeyedById, NameToId, Payable, Filled;
    var matches, drops := Matches(c, extracted), RawDrops(c, extracted);
    ProcessIsPayable(c, extracted);
    RawPayable(c, extracted);
    LostPayIsADrop(c, extracted, i, f);
    KeyedAtOwnId(extracted, matches, c.roster, i);
    Decide.ProcessExactly(Filled(c, extracted), matches, Issues(Filled(c, extracted), c.roster, matches, c.suppressDetection, drops));
    RegressionRaised(drops, NameToId(matches), c.suppressDetection, ValidationIssue(FieldRegression, extracted[i].submittedName, f));
  }

  /**
    If the gate says process, every hours field that backfill changed was already answered: its
    employee and field are in the suppress set. No carried-forward hour is paid unasked.
   */
  lemma NothingCarriedUnasked(c: Context, extracted: Extracted, i: nat, f: HoursField)
    requires i < |extracted| && Gate(c, extracted).process
    requires Filled(c, extracted)[i].Get(f) != extracted[i].Get(f)
    ensures var m := Matches(c, extracted)[i]; m.resolved && Pair(m.matched.value, f) in c.suppressDetection
  {
    hide Gate, NameToId, KeyedById, Reconcile;
    ProcessIsPayable(c, extracted);
    RawPayable(c, extracted);
    KeyedAtOwnId(extracted, Matches(c, extracted), c.roster, i);
    ChangedOnlyFromOwnSnapshot(extracted, c.snapshot.value, SharedPrior(c, extracted), Matches(c, extracted), c.backfillSkip, i, f);
    NoPaidHourVanishesUnanswered(c, extracted, i, f);
  }
}
