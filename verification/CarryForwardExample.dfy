/**
  One concrete answered round that processes and restores a carried-forward hour, so the laws about
  processing rounds speak of rounds that exist.
*/
module CarryForwardExample {
  import opened Prelude
  import opened Contracts
  import opened ReconcileNames
  import opened Validate
  import Decide
  import opened AliasLearning
  import opened Backfill
  import opened Orchestrator
  import opened Rounds
  import opened AnsweredRounds

  const NAME := "Ann"
  const ANN := Employee(1, NAME, {}, Salary(0.0), 0.0, W4(Single, false, 0.0, 0.0, 0.0), 0.0, 12)
  const KNOWN := Match(NAME, Some(1), Exact, true)
  const OVERTIME := Pair(1, Overtime)
  const LABELS: Labels := map[OVERTIME := CarriedForward]
  const QUIET := SILENT.(submittedName := NAME)
  const BEFORE := QUIET.(overtime := Some(2.0))

  function Same(s: string): string {
    s
  }

  /** Ann was paid two hours of overtime, said to carry them forward, and every later text is silent on them. */
  function Silence(): Resume {
    Resume(Same, [ANN], [], [QUIET], Some([BEFORE]), [KNOWN], map[], [])
  }

  lemma AnnResolves()
    ensures ReconcileOne(Same, NAME, [ANN], map[]) == KNOWN
    ensures Reconcile(Same, [NAME], [ANN], map[]) == [KNOWN]
  {
    assert ANN in [ANN] && ByFullName(Same, NAME, ANN);
    assert 1 in ExactIds(Same, NAME, [ANN]);
    assert Candidates(Same, NAME, [ANN]) == {1};
    ResolvesExactly(Same, NAME, [ANN], 1);
  }

  lemma NothingOverwritten()
    ensures Overwritten(LABELS, Silence()) == [QUIET]
  {
    hide NameToId, Reconcile;
    assert ForcedValues(LABELS, Silence()) == map[];
    NothingForced(QUIET, NameToId(Reconcile(Same, Names([QUIET]), [ANN], map[])));
  }

  lemma OnePerson(e: ExtractedEmployee)
    requires e.submittedName == NAME
    ensures Names([e]) == [NAME]
    ensures NameToId([KNOWN]) == map[NAME := 1] == NameToId([KNOWN, KNOWN])
    ensures KeyedById([e], map[NAME := 1]) == map[1 := e]
  {
    assert [KNOWN, KNOWN][..1] == [KNOWN] && [KNOWN][..0] == [] && [e][..0] == [];
    assert NameToId([]) == map[];
  }

  lemma TheSnapshotIsShared()
    ensures var c := AnsweredContext(LABELS, Silence());
      && Matches(c, [QUIET]) == [KNOWN]
      && SharedPrior(c, [QUIET]) == Some([KNOWN, KNOWN])
      && SnapshotHours(c, [QUIET], OVERTIME) == Some(2.0)
  {
    hide SuppressDetection, BackfillSkip, ReconcileOne;
    AnnResolves();
    OnePerson(QUIET);
    OnePerson(BEFORE);
    assert PriorForBackfill(Silence()) == [KNOWN, KNOWN];
  }

  /** The only drop is the overtime, and its pair is suppressed. */
  lemma NoRegressionLeft(issue: ValidationIssue)
    ensures var c := AnsweredContext(LABELS, Silence());
      issue !in RegressionIssues(RawDrops(c, [QUIET]), NameToId([KNOWN]), c.suppressDetection)
  {
    hide SuppressDetection, BackfillSkip, PriorForBackfill;
    var c := AnsweredContext(LABELS, Silence());
    TheSnapshotIsShared();
    OnePerson(QUIET);
    OnePerson(BEFORE);
    SetsExactly(LABELS, Silence());
    assert OVERTIME in c.suppressDetection;
    RegressionRaised(RawDrops(c, [QUIET]), NameToId([KNOWN]), c.suppressDetection, issue);
    forall d | d in RawDrops(c, [QUIET]) ensures d.field == Overtime {
      DropReported([BEFORE], [QUIET], [KNOWN, KNOWN], [KNOWN], d);
    }
  }

  lemma NothingMissing(e: ExtractedEmployee)
    requires e.submittedName == NAME
    ensures !LacksHours(e, [KNOWN], [ANN]) && !LacksOvertimeSplit(e, [KNOWN], [ANN])
  {
    assert EmployeeWithId(1, [ANN]) == Some(ANN);
  }

  lemma {:induction false} NoneFlagged(extracted: Extracted, field: HoursField, flagged: ExtractedEmployee -> bool)
    requires forall e <- extracted :: !flagged(e)
    ensures MissingIssues(extracted, field, flagged) == []
  {
    if extracted != [] {
      NoneFlagged(extracted[..|extracted| - 1], field, flagged);
    }
  }

  lemma NoIssues(filled: Extracted)
    requires |filled| == 1 && filled[0].submittedName == NAME
    ensures var c := AnsweredContext(LABELS, Silence());
      Issues(filled, [ANN], [KNOWN], c.suppressDetection, RawDrops(c, [QUIET])) == []
  {
    hide AnsweredContext, RawDrops, LacksHours, LacksOvertimeSplit, MissingIssues;
    var c := AnsweredContext(LABELS, Silence());
    var regressions := RegressionIssues(RawDrops(c, [QUIET]), NameToId([KNOWN]), c.suppressDetection);
    if regressions != [] {
      NoRegressionLeft(regressions[0]);
      assert false;
    }
    NothingMissing(filled[0]);
    NoneFlagged(filled, Regular, e => LacksHours(e, [KNOWN], [ANN]));
    NoneFlagged(filled, Overtime, e => LacksOvertimeSplit(e, [KNOWN], [ANN]));
  }

  lemma OneCleanEmployee(filled: Extracted)
    requires |filled| == 1 && filled[0].submittedName == NAME
    ensures Decide.DecisionFor(filled, [KNOWN], []).process
  {
    hide Decide.DecisionFor;
    assert Names(filled) == [NAME] == Decide.MatchNames([KNOWN]);
    Decide.ProcessExactly(filled, [KNOWN], []);
  }

  lemma StillAnn()
    ensures Filled(AnsweredContext(LABELS, Silence()), [QUIET])[0].submittedName == NAME
  {
    hide AnsweredContext, Filled, Overwritten;
    NothingOverwritten();
    FilledOnes(LABELS, Silence(), 0);
  }

  lemma Processes()
    ensures Gate(AnsweredContext(LABELS, Silence()), [QUIET]).process
  {
    hide SuppressDetection, BackfillSkip, PriorForBackfill, Filled, RawDrops, Issues, Decide.DecisionFor, Matches, SharedPrior, SnapshotHours;
    TheSnapshotIsShared();
    StillAnn();
    var filled := Filled(AnsweredContext(LABELS, Silence()), [QUIET]);
    NoIssues(filled);
    OneCleanEmployee(filled);
  }

  lemma Restores()
    ensures Filled(AnsweredContext(LABELS, Silence()), [QUIET])[0].Get(Overtime) == Some(2.0)
  {
    hide SuppressDetection, BackfillSkip, PriorForBackfill, Filled;
    TheSnapshotIsShared();
    FilledHours(AnsweredContext(LABELS, Silence()), [QUIET], 0, OVERTIME);
    SetsExactly(LABELS, Silence());
  }

  /** The round processes, and pays the two hours although nobody restated them. */
  lemma TheHoursAreRestored()
    ensures Gate(AnsweredContext(LABELS, Silence()), Overwritten(LABELS, Silence())).process
    ensures Overwritten(LABELS, Silence())[0].overtime == None
    ensures FinalHours(LABELS, Silence(), 0, Overtime) == Some(2.0)
  {
    hide AnsweredContext, Overwritten, Gate, Filled;
    NothingOverwritten();
    Processes();
    Restores();
  }
}
