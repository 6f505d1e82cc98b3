/**
  One run's conversation within a reply epoch: how passes, questions, crashes and the automatic rewind
  change its labels, and which questions have gone out.
*/
module Conversation {
  import opened Prelude
  import opened Contracts
  import opened ReconcileNames
  import opened Validate
  import opened Orchestrator
  import opened Rounds
  import opened AnsweredRounds
  import opened SnapshotRows

  /** Records a question for every drop about to be asked, never over a terminal. */
  function Deferred(labels: Labels, issues: seq<ValidationIssue>, ids: map<string, EmployeeId>): Labels {
    if issues == [] then labels
    else
      var issue := issues[|issues| - 1];
      var before := Deferred(labels, issues[..|issues| - 1], ids);
      if issue.kind == FieldRegression && issue.submittedName in ids then
        var p := Pair(ids[issue.submittedName], issue.field);
        if p in before && before[p] != Asked then before else before[p := Asked]
      else before
  }

  method DeferFieldRegression(labels: Labels, issues: seq<ValidationIssue>, matches: seq<NameMatch>) returns (clarified: Labels)
    ensures clarified == Deferred(labels, issues, NameToId(matches))
  {
    clarified := labels;
    var ids := NameToId(matches);
    for i := 0 to |issues|
      invariant clarified == Deferred(labels, issues[..i], ids)
    {
      assert issues[..i + 1][..i] == issues[..i];
      if issues[i].kind == FieldRegression {
        if issues[i].submittedName in ids {
          var p := Pair(ids[issues[i].submittedName], issues[i].field);
          if p in clarified && (clarified[p].Stated() || clarified[p] == CarriedForward) {
            continue;
          }
          clarified := clarified[p := Asked];
        }
      }
    }
    assert issues[..|issues|] == issues;
  }

  /** The pass defers its question exactly when it clarifies and some issue is a dropped field. */
  predicate Defers(s: Stages) {
    !s.decision.process && exists issue <- s.issues :: issue.kind == FieldRegression
  }

  /** Any recorded question makes the round an answered one. */
  function RoundContext(labels: Labels, r: Resume): Context {
    if labels == map[] then FirstContext(r) else AnsweredContext(labels, r)
  }

  function RoundExtraction(labels: Labels, r: Resume): Extracted {
    if labels == map[] then r.combined else Overwritten(labels, r)
  }

  function RoundLabels(labels: Labels, r: Resume): Labels {
    if labels == map[] then labels else Classified(labels, r)
  }

  function RoundStages(labels: Labels, r: Resume): Result<Stages, StageError> {
    StagesOf(RoundContext(labels, r), RoundExtraction(labels, r))
  }

  /** The labels the run holds once the resume has returned. */
  function Resumed(labels: Labels, r: Resume): Labels {
    var s := RoundStages(labels, r);
    if s.Ok? && Defers(s.value) then Deferred(RoundLabels(labels, r), s.value.issues, NameToId(s.value.matches))
    else RoundLabels(labels, r)
  }

  method ResumePipeline(labels: Labels, r: Resume) returns (clarified: Labels, stages: Result<Stages, StageError>)
    ensures clarified == Resumed(labels, r) && stages == RoundStages(labels, r)
  {
    hide StagesOf, Classified, AnsweredContext, Overwritten, Deferred;
    clarified := labels;
    if labels == map[] {
      stages := RunStages(FirstContext(r), r.combined);
    } else {
      clarified, stages := AnswerRound(labels, r);
    }
    if stages.Ok? && Defers(stages.value) {
      clarified := DeferFieldRegression(clarified, stages.value.issues, stages.value.matches);
    }
  }

  // ---------------------------------------------------------------------------------------------
  // Labels only move forward
  // ---------------------------------------------------------------------------------------------

  /** No pair leaves, no terminal changes. */
  ghost predicate Forward(a: Labels, b: Labels) {
    forall p <- a :: p in b && (a[p] != Asked ==> b[p] == a[p])
  }

  /** One resume: labels move forward, and a new pair enters as asked. */
  ghost predicate OneStep(a: Labels, b: Labels) {
    Forward(a, b) && forall p <- b :: p !in a ==> b[p] == Asked
  }

  lemma {:induction false} DeferredStep(labels: Labels, issues: seq<ValidationIssue>, ids: map<string, EmployeeId>)
    ensures OneStep(labels, Deferred(labels, issues, ids))
    ensures forall p <- labels :: Deferred(labels, issues, ids)[p] == labels[p]
  {
    if issues != [] {
      DeferredStep(labels, issues[..|issues| - 1], ids);
    }
  }

  lemma ResumedStep(labels: Labels, r: Resume)
    ensures OneStep(labels, Resumed(labels, r))
  {
    hide RoundStages, Answer;
    var s := RoundStages(labels, r);
    if s.Ok? && Defers(s.value) {
      DeferredStep(RoundLabels(labels, r), s.value.issues, NameToId(s.value.matches));
    }
  }

  /**
    The suppress set already keeps every terminal from being raised again, so the guard against
    overwriting terminals is never needed: a dropped field that gates a round has no terminal label.
   */
  lemma TerminalsAreNotRaisedAgain(labels: Labels, r: Resume, issue: ValidationIssue)
    requires RoundStages(labels, r).Ok?
    requires issue in RoundStages(labels, r).value.issues && issue.kind == FieldRegression
    ensures var ids, now := NameToId(RoundStages(labels, r).value.matches), RoundLabels(labels, r);
      && issue.submittedName in ids
      && var p := Pair(ids[issue.submittedName], issue.field); (p in now ==> now[p] == Asked)
  {
    hide SuppressDetection, BackfillSkip, Overwritten, Classified, Filled, LineItems, NameToId, RawDrops;
    var c, x := RoundContext(labels, r), RoundExtraction(labels, r);
    var s := RoundStages(labels, r).value;
    IssueIsADrop(c, x, issue);
    if labels != map[] {
      SetsExactly(labels, r);
    }
  }

  lemma IssueIsADrop(c: Context, x: Extracted, issue: ValidationIssue)
    requires issue.kind == FieldRegression
    requires issue in Issues(Filled(c, x), c.roster, Matches(c, x), c.suppressDetection, RawDrops(c, x))
    ensures var ids := NameToId(Matches(c, x));
      issue.submittedName in ids && Pair(ids[issue.submittedName], issue.field) !in c.suppressDetection
  {
    hide NameToId, Filled, RawDrops, LacksHours, LacksOvertimeSplit, Matches;
    var matches, filled := Matches(c, x), Filled(c, x);
    RegressionRaised(RawDrops(c, x), NameToId(matches), c.suppressDetection, issue);
    InMissingIssues(filled, Regular, e => LacksHours(e, matches, c.roster), issue);
    InMissingIssues(filled, Overtime, e => LacksOvertimeSplit(e, matches, c.roster), issue);
  }

  /** Every drop that gates a round is labelled asked by the pass that defers its question. */
  lemma EveryQuestionIsRecorded(labels: Labels, r: Resume, issue: ValidationIssue)
    requires RoundStages(labels, r).Ok? && Defers(RoundStages(labels, r).value)
    requires issue in RoundStages(labels, r).value.issues && issue.kind == FieldRegression
    ensures var ids, after := NameToId(RoundStages(labels, r).value.matches), Resumed(labels, r);
      && issue.submittedName in ids
      && var p := Pair(ids[issue.submittedName], issue.field); p in after && after[p] == Asked
  {
    hide RoundStages, Classified, RoundLabels, NameToId;
    TerminalsAreNotRaisedAgain(labels, r, issue);
    var s := RoundStages(labels, r).value;
    DeferredRecords(RoundLabels(labels, r), s.issues, NameToId(s.matches), issue);
  }

  lemma {:induction false} DeferredRecords(labels: Labels, issues: seq<ValidationIssue>, ids: map<string, EmployeeId>, issue: ValidationIssue)
    requires issue in issues && issue.kind == FieldRegression && issue.submittedName in ids
    requires var p := Pair(ids[issue.submittedName], issue.field); p in labels ==> labels[p] == Asked
    ensures var p := Pair(ids[issue.submittedName], issue.field);
      p in Deferred(labels, issues, ids) && Deferred(labels, issues, ids)[p] == Asked
  {
    var n := |issues| - 1;
    DeferredStep(labels, issues[..n], ids);
    if issue in issues[..n] {
      DeferredRecords(labels, issues[..n], ids, issue);
    }
  }

  // ---------------------------------------------------------------------------------------------
  // What a pass pays
  // ---------------------------------------------------------------------------------------------

  /**
    A resume that processes pays one line per extracted employee, in order, each a different roster employee:
    as the client answered when anything was on record, and exactly the extraction's own hours otherwise.
   */
  lemma ResumePays(labels: Labels, r: Resume)
    requires r.overrides == map[] && RoundStages(labels, r).Ok? && RoundStages(labels, r).value.decision.process
    ensures var items := RoundStages(labels, r).value.items;
      && items.Some? && |items.value| == |r.combined|
      && (forall i, j | 0 <= i < j < |r.combined| :: items.value[i].employeeId != items.value[j].employeeId)
      && forall i | 0 <= i < |r.combined| ::
           if labels == map[]
           then LineOf(items.value[i], r.combined[i], ReconcileOne(r.norm, r.combined[i].submittedName, r.roster, map[]), r.roster)
           else LineAsSaid(labels, r, i, items.value[i])
  {
    hide Gate, Filled, LineItems, LineOf, LineAsSaid, ReconcileOne, Issues, AnsweredContext, Overwritten;
    if labels == map[] {
      FirstResumePaysTheExtraction(r);
    } else {
      AnsweredRoundPaysWhatWasSaid(labels, r);
    }
  }

  /** With nothing on record yet, a resume never processes while an employee lacks pay the snapshot's row for them held. */
  lemma LostPayStopsTheResume(r: Resume, i: nat, k: nat, f: HoursField)
    requires i < |r.combined| && r.snapshot.Some? && RoundStages(map[], r).Ok?
    requires var m := ReconcileOne(r.norm, r.combined[i].submittedName, r.roster, r.overrides);
      m.matched.Some? && LastRow(r.snapshot.value, r.prior, m.matched.value, k)
    requires IsPaid(r.snapshot.value[k].Get(f)) && !IsPaid(r.combined[i].Get(f))
    ensures !RoundStages(map[], r).value.decision.process
  {
    hide Gate, Filled, LineItems, LastRow, ReconcileOne, Issues;
    FirstResumeAsksForLostPay(r, i, k, f);
  }

  /** The first pass reads the extraction as it is and no overrides: what it stores is the extraction and the plain resolver's matches. */
  lemma FirstPassReadsOnlyTheEmail(r: Resume)
    ensures var s := StagesOf(PipelineContext(r), r.combined);
      && s.Ok? && s.value.extracted == r.combined && s.value.changes == []
      && (forall i | 0 <= i < |r.combined| ::
            i < |s.value.matches| && s.value.matches[i] == ReconcileOne(r.norm, r.combined[i].submittedName, r.roster, map[]))
      && (s.value.decision.process ==>
            && s.value.items.Some? && |s.value.items.value| == |r.combined|
            && forall i | 0 <= i < |r.combined| :: LineOf(s.value.items.value[i], r.combined[i], s.value.matches[i], r.roster))
  {
    hide Gate, LineItems, LineOf, ReconcileOne, Issues;
    ProcessPaysEveryoneOnce(PipelineContext(r), r.combined);
  }

  // ---------------------------------------------------------------------------------------------
  // The conversation as steps
  // ---------------------------------------------------------------------------------------------

  /** A question a pass has decided on: the extraction it stores and the dropped fields it asks about. */
  datatype Question = Question(extracted: Extracted, pairs: set<Pair>)

  /** What the run's row holds, the question not yet frozen, and the pairs asked about in frozen emails. */
  datatype Talk = Talk(
    labels: Labels,
    snapshot: Option<Extracted>,
    matches: seq<NameMatch>,
    pending: Option<Question>,
    sent: set<Pair>)

  const START := Talk(map[], None, [], None, {})

  /**
    A first pass, a resume, the freezing of the pending question, a worker lost before it or a cap that
    hands the run to the operator, a worker lost once the classified labels are stored (before or after
    the pass's own transaction), and the automatic rewind of a stranded run.
   */
  datatype Step =
    | Pipeline(r: Resume)
    | Reply(r: Resume)
    | Ask
    | DropQuestion
    | CrashAfterLabels(r: Resume, staged: bool)
    | Rewind

  /** The first pass reads no snapshot, no prior matches and no overrides. */
  function PipelineContext(r: Resume): Context {
    Context(r.norm, r.roster, None, None, {}, {}, map[], [])
  }

  predicate Enabled(t: Talk, step: Step) {
    match step
    case Pipeline(_) => t.pending.None?
    case Reply(r) => t.pending.None? && r.snapshot == t.snapshot && r.prior == t.matches
    case Ask => t.pending.Some?
    case DropQuestion => t.pending.Some?
    case CrashAfterLabels(r, _) => t.pending.None? && r.snapshot == t.snapshot && r.prior == t.matches
    case Rewind => true
  }

  /** The employee fields a deferred question is about. */
  function AskedPairs(s: Stages): set<Pair> {
    var ids := NameToId(s.matches);
    set i | i in s.issues && i.kind == FieldRegression && i.submittedName in ids :: Pair(ids[i.submittedName], i.field)
  }

  function Apply(t: Talk, step: Step): Talk
    requires Enabled(t, step)
  {
    match step
    case Pipeline(r) =>
      var s := StagesOf(PipelineContext(r), r.combined);
      if s.Err? then t
      else
        t.(matches := s.value.matches,
           pending := if s.value.decision.process then None else Some(Question(s.value.extracted, {})))
    case Reply(r) =>
      var s := RoundStages(t.labels, r);
      var labels := Resumed(t.labels, r);
      if s.Err? then t.(labels := labels)
      else
        t.(labels := labels, matches := s.value.matches,
           pending := if s.value.decision.process then None
                      else Some(Question(s.value.extracted, if Defers(s.value) then AskedPairs(s.value) else {})))
    case Ask =>
      // The snapshot is written once, in the transaction that freezes the question.
      t.(snapshot := if t.snapshot.Some? then t.snapshot else Some(t.pending.value.extracted),
         pending := None, sent := t.sent + t.pending.value.pairs)
    case DropQuestion => t.(pending := None)
    case CrashAfterLabels(r, staged) =>
      var s := RoundStages(t.labels, r);
      t.(labels := RoundLabels(t.labels, r), matches := if staged && s.Ok? then s.value.matches else t.matches)
    case Rewind => t.(labels := map[], snapshot := None)
  }

  predicate Runs(t: Talk, steps: seq<Step>, rewinds: bool)
    decreases |steps|
  {
    steps == [] || (Enabled(t, steps[0]) && (steps[0].Rewind? ==> rewinds) && Runs(Apply(t, steps[0]), steps[1..], rewinds))
  }

  function End(t: Talk, steps: seq<Step>, rewinds: bool): Talk
    requires Runs(t, steps, rewinds)
    decreases |steps|
  {
    if steps == [] then t else End(Apply(t, steps[0]), steps[1..], rewinds)
  }

  /** What is asked and what has been asked is labelled; the pending question's fields are still asked. */
  ghost predicate Recorded(t: Talk) {
    && t.sent <= t.labels.Keys
    && (t.pending.Some? ==> forall p <- t.pending.value.pairs :: p in t.labels && t.labels[p] == Asked)
  }

  lemma ClassifiedStep(labels: Labels, r: Resume)
    ensures OneStep(labels, RoundLabels(labels, r))
  {
    hide Answer;
  }

  lemma PairsAreRecorded(labels: Labels, r: Resume, p: Pair)
    requires RoundStages(labels, r).Ok? && Defers(RoundStages(labels, r).value) && p in AskedPairs(RoundStages(labels, r).value)
    ensures p in Resumed(labels, r) && Resumed(labels, r)[p] == Asked
  {
    hide RoundStages, Resumed, NameToId;
    var s := RoundStages(labels, r).value;
    var i :| i in s.issues && i.kind == FieldRegression && i.submittedName in NameToId(s.matches)
             && p == Pair(NameToId(s.matches)[i.submittedName], i.field);
    EveryQuestionIsRecorded(labels, r, i);
  }

  lemma StepKeeps(t: Talk, step: Step)
    requires Recorded(t) && Enabled(t, step) && !step.Rewind?
    ensures Recorded(Apply(t, step)) && OneStep(t.labels, Apply(t, step).labels)
    ensures t.snapshot.Some? ==> Apply(t, step).snapshot == t.snapshot
  {
    hide StagesOf, RoundStages, Resumed, RoundLabels, NameToId, AskedPairs;
    match step
    case Reply(r) =>
      ResumedStep(t.labels, r);
      var s := RoundStages(t.labels, r);
      if s.Ok? && Defers(s.value) {
        forall p <- AskedPairs(s.value) ensures p in Resumed(t.labels, r) && Resumed(t.labels, r)[p] == Asked {
          PairsAreRecorded(t.labels, r, p);
        }
      }
    case CrashAfterLabels(r, _) => ClassifiedStep(t.labels, r);
    case _ =>
  }

  /**
    Without rewinds, over any history of passes, questions and crashes: labels only move forward,
    every question frozen or about to be is on record, and the first question's snapshot stays.
   */
  lemma {:induction false} WithoutRewinds(t: Talk, steps: seq<Step>)
    requires Recorded(t) && Runs(t, steps, false)
    ensures Recorded(End(t, steps, false)) && Forward(t.labels, End(t, steps, false).labels)
    ensures t.snapshot.Some? ==> End(t, steps, false).snapshot == t.snapshot
    decreases |steps|
  {
    hide Apply, Enabled, Recorded;
    if steps != [] {
      StepKeeps(t, steps[0]);
      WithoutRewinds(Apply(t, steps[0]), steps[1..]);
    }
  }
}
