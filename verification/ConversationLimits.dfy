/**
  Exactly when labels only move forward and every question stays on record: the automatic rewind of a
  stranded run clears both within one reply epoch.
*/
module ConversationLimits {
  import opened Prelude
  import opened Contracts
  import opened ReconcileNames
  import opened Validate
  import Decide
  import opened AliasLearning
  import opened Backfill
  import opened Orchestrator
  import opened Rounds
  import opened AnsweredRounds
  import opened Conversation
  import opened CarryForwardExample

  /** Whatever came before, no continuation takes a pair away or changes a terminal, and each step labels new pairs asked. */
  ghost predicate AlwaysForward(rewinds: bool) {
    forall past: seq<Step>, more: seq<Step> | Runs(START, past, rewinds) && Runs(End(START, past, rewinds), more, rewinds) ::
      OnlyForward(End(START, past, rewinds), more, rewinds)
  }

  ghost predicate OnlyForward(now: Talk, more: seq<Step>, rewinds: bool)
    requires Runs(now, more, rewinds)
  {
    && Forward(now.labels, End(now, more, rewinds).labels)
    && (|more| == 1 ==> OneStep(now.labels, End(now, more, rewinds).labels))
  }

  ghost predicate AlwaysRecorded(rewinds: bool) {
    forall past: seq<Step> | Runs(START, past, rewinds) :: Recorded(End(START, past, rewinds))
  }

  // ---------------------------------------------------------------------------------------------
  // A terminal is lost
  // ---------------------------------------------------------------------------------------------

  const STRANGER := SILENT.(submittedName := "Bob")
  const UNKNOWN := Match("Bob", None, NoSource, false)
  const FIRST_EMAIL: Extracted := [BEFORE, STRANGER]
  const FIRST_MATCHES: seq<NameMatch> := [KNOWN, UNKNOWN]

  /** Ann's two hours of overtime, and a name nobody bears. */
  function Submission(): Resume {
    Resume(Same, [ANN], [], FIRST_EMAIL, None, [], map[], [])
  }

  /** The client withdraws the stranger and says nothing more of Ann's overtime. */
  function Withdrawal(): Resume {
    Resume(Same, [ANN], [], [QUIET], Some(FIRST_EMAIL), FIRST_MATCHES, map[], [])
  }

  /** Asked about it, the client says there was none. */
  function Zero(): Resume {
    Resume(Same, [ANN], [QUIET.(overtime := Some(0.0))], [QUIET], Some(FIRST_EMAIL), [KNOWN], map[], [])
  }

  lemma StrangerIsUnknown()
    ensures ReconcileOne(Same, "Bob", [ANN], map[]) == UNKNOWN
    ensures Reconcile(Same, ["Ann", "Bob"], [ANN], map[]) == FIRST_MATCHES
  {
    NobodyIsBob();
    hide ReconcileOne;
    AnnResolves();
    assert Reconcile(Same, ["Ann", "Bob"], [ANN], map[])[1] == UNKNOWN;
  }

  lemma NobodyIsBob()
    ensures ReconcileOne(Same, "Bob", [ANN], map[]) == UNKNOWN
  {
    assert Candidates(Same, "Bob", [ANN]) == {} by {
      assert forall e <- [ANN] :: e == ANN;
    }
    hide Candidates;
  }

  /** The stranger keeps the first pass from processing; it matches Ann, and will store both rows as the snapshot. */
  lemma FirstPass()
    ensures var s := StagesOf(PipelineContext(Submission()), FIRST_EMAIL);
      && s.Ok? && !s.value.decision.process && !Defers(s.value)
      && s.value.extracted == FIRST_EMAIL && s.value.matches == FIRST_MATCHES
  {
    hide Issues, ReconcileOne;
    var c := PipelineContext(Submission());
    StrangerIsUnknown();
    assert Names(FIRST_EMAIL) == ["Ann", "Bob"];
    var issues := Issues(FIRST_EMAIL, [ANN], FIRST_MATCHES, {}, []);
    assert UNKNOWN in FIRST_MATCHES;
    Decide.ProcessExactly(FIRST_EMAIL, FIRST_MATCHES, issues);
    forall i | i in issues ensures i.kind != FieldRegression {
      NoRegressionWithoutDrops(i);
    }
  }

  lemma NoRegressionWithoutDrops(i: ValidationIssue)
    requires i in Issues(FIRST_EMAIL, [ANN], FIRST_MATCHES, {}, [])
    ensures i.kind != FieldRegression
  {
    hide LacksHours, LacksOvertimeSplit;
    InMissingIssues(FIRST_EMAIL, Regular, e => LacksHours(e, FIRST_MATCHES, [ANN]), i);
    InMissingIssues(FIRST_EMAIL, Overtime, e => LacksOvertimeSplit(e, FIRST_MATCHES, [ANN]), i);
  }

  lemma FirstIds()
    ensures NameToId(FIRST_MATCHES) == map["Ann" := 1]
    ensures KeyedById(FIRST_EMAIL, map["Ann" := 1]) == map[1 := BEFORE]
  {
    OnePerson(BEFORE);
    assert FIRST_MATCHES[..1] == [KNOWN] && FIRST_EMAIL[..1] == [BEFORE];
  }

  const DROP := ValidationIssue(FieldRegression, NAME, Overtime)

  /** The next pass sees the dropped overtime and defers a question about it. */
  lemma SecondPass()
    ensures var s := RoundStages(map[], Withdrawal());
      s.Ok? && s.value.matches == [KNOWN] && DROP in s.value.issues && Defers(s.value) && !s.value.decision.process
  {
    hide Filled, LineItems, LacksHours, LacksOvertimeSplit, ReconcileOne, Decide.DecisionFor;
    var r := Withdrawal();
    var c := FirstContext(r);
    AnnResolves();
    OnePerson(QUIET);
    assert Matches(c, [QUIET]) == [KNOWN];
    var drops, issues := RawDrops(c, [QUIET]), Issues(Filled(c, [QUIET]), [ANN], [KNOWN], {}, RawDrops(c, [QUIET]));
    TheDropIsSeen();
    RegressionRaised(drops, NameToId([KNOWN]), {}, DROP);
    assert DROP in issues;
    Decide.ProcessExactly(Filled(c, [QUIET]), [KNOWN], issues);
  }

  lemma TheDropIsSeen()
    ensures var drops := RawDrops(FirstContext(Withdrawal()), [QUIET]);
      exists d <- drops :: d.submittedName == NAME && d.field == Overtime
  {
    hide ReconcileOne;
    AnnResolves();
    OnePerson(QUIET);
    FirstIds();
    var c := FirstContext(Withdrawal());
    assert Matches(c, [QUIET]) == [KNOWN];
    assert SharedPrior(c, [QUIET]) == Some(FIRST_MATCHES);
    var d := RawFieldDrop(NAME, Overtime, 2.0, None);
    var o, r := KeyedById(FIRST_EMAIL, NameToId(FIRST_MATCHES)), KeyedById([QUIET], NameToId([KNOWN]));
    assert o[1] == BEFORE && r[1] == QUIET && Dropped(o[1], r[1], d);
    hide KeyedById, NameToId, FieldRegressions;
    DropReported(FIRST_EMAIL, [QUIET], FIRST_MATCHES, [KNOWN], d);
    assert d in RawDrops(c, [QUIET]);
  }

  /** The answer is found in the reply and confirms the drop. */
  lemma ZeroConfirms(labels: Labels)
    requires OVERTIME in labels && labels[OVERTIME] == Asked
    ensures labels != map[] && Classified(labels, Zero())[OVERTIME] == ConfirmedDropped
  {
    hide Reconcile, ReconcileOne;
    AnnResolves();
    OnePerson(QUIET);
    var r := Zero();
    assert r.prior + Reconcile(Same, Names(r.reply), [ANN], map[]) == [KNOWN, KNOWN] by {
      assert Names(r.reply) == [NAME];
    }
    ReplyEmployeeMeans(r.reply, ClassifyIds(r), 1);
    assert r.reply[0] in r.reply;
    assert Answer(r, OVERTIME) == Some(r.reply[0]);
  }

  const AFTER_FIRST := Talk(map[], None, FIRST_MATCHES, Some(Question(FIRST_EMAIL, {})), {})
  const FIRST_ASKED := Talk(map[], Some(FIRST_EMAIL), FIRST_MATCHES, None, {})

  /** The run up to the answer: a first pass, its question, the resume that finds the drop, and the question about it. */
  const UP_TO_THE_ANSWER: seq<Step> := [Pipeline(Submission()), Ask, Step.Reply(Withdrawal()), Ask]

  /** Where it leads: overtime is on record as asked, and the question is out. */
  ghost predicate OvertimeAsked(t: Talk) {
    && OVERTIME in t.labels && t.labels[OVERTIME] == Asked && OVERTIME in t.sent
    && t.snapshot == Some(FIRST_EMAIL) && t.matches == [KNOWN] && t.pending == None
  }

  lemma TheQuestionGoesOut(rewinds: bool)
    ensures Runs(START, UP_TO_THE_ANSWER, rewinds) && OvertimeAsked(End(START, UP_TO_THE_ANSWER, rewinds))
  {
    hide StagesOf, RoundStages, Resumed, Defers, AskedPairs;
    FirstPass();
    assert Apply(START, Pipeline(Submission())) == AFTER_FIRST;
    assert Apply(AFTER_FIRST, Ask) == FIRST_ASKED;
    SecondPass();
    DropIsAsked();
    var resumed := Apply(FIRST_ASKED, Step.Reply(Withdrawal()));
    var asked := Apply(resumed, Ask);
    assert OvertimeAsked(asked);
    FourSteps(START, UP_TO_THE_ANSWER, rewinds);
  }

  /** A run of four given steps, one application at a time. */
  lemma FourSteps(t: Talk, steps: seq<Step>, rewinds: bool)
    requires |steps| == 4 && forall s <- steps :: !s.Rewind?
    requires Enabled(t, steps[0])
    requires Enabled(Apply(t, steps[0]), steps[1])
    requires Enabled(Apply(Apply(t, steps[0]), steps[1]), steps[2])
    requires Enabled(Apply(Apply(Apply(t, steps[0]), steps[1]), steps[2]), steps[3])
    ensures Runs(t, steps, rewinds)
    ensures End(t, steps, rewinds) == Apply(Apply(Apply(Apply(t, steps[0]), steps[1]), steps[2]), steps[3])
  {
    hide Apply, Enabled;
    var a := Apply(t, steps[0]);
    var b := Apply(a, steps[1]);
    var c := Apply(b, steps[2]);
    LastStep(c, steps[3], rewinds);
    assert steps[1..][1..][1..] == [steps[3]];
    assert Runs(b, steps[1..][1..], rewinds) && End(b, steps[1..][1..], rewinds) == Apply(c, steps[3]);
    assert Runs(a, steps[1..], rewinds) && End(a, steps[1..], rewinds) == Apply(c, steps[3]);
  }

  lemma LastStep(t: Talk, step: Step, rewinds: bool)
    requires Enabled(t, step) && (step.Rewind? ==> rewinds)
    ensures Runs(t, [step], rewinds) && End(t, [step], rewinds) == Apply(t, step)
  {
    hide Apply, Enabled;
    assert [step][1..] == [];
  }

  lemma DropIsAsked()
    ensures var labels := Resumed(map[], Withdrawal());
      OVERTIME in labels && labels[OVERTIME] == Asked && OVERTIME in AskedPairs(RoundStages(map[], Withdrawal()).value)
  {
    hide RoundStages, Resumed, Defers;
    SecondPass();
    OnePerson(QUIET);
    assert OVERTIME in AskedPairs(RoundStages(map[], Withdrawal()).value);
    PairsAreRecorded(map[], Withdrawal(), OVERTIME);
  }

  /** The worker stores the terminal and dies; the reclaimed job rewinds the run, and terminal and record are gone. */
  lemma TheTerminalIsLost() returns (past: seq<Step>, now: Talk)
    ensures Runs(START, past, true) && End(START, past, true) == now
    ensures OVERTIME in now.labels && now.labels[OVERTIME] == ConfirmedDropped && OVERTIME in now.sent
    ensures Runs(now, [Rewind], true) && End(now, [Rewind], true).labels == map[] && End(now, [Rewind], true).sent == now.sent
  {
    hide StagesOf, RoundStages, Classified, Runs, End;
    TheQuestionGoesOut(true);
    var asked := End(START, UP_TO_THE_ANSWER, true);
    var crash := CrashAfterLabels(Zero(), false);
    ZeroConfirms(asked.labels);
    LastStep(asked, crash, true);
    now := Apply(asked, crash);
    past := UP_TO_THE_ANSWER + [crash];
    Concat(START, UP_TO_THE_ANSWER, [crash], true);
    assert OVERTIME in Classified(asked.labels, Zero()) by {
      SameKeys(asked.labels, Zero());
    }
    LastStep(now, Rewind, true);
  }

  lemma SameKeys(labels: Labels, r: Resume)
    ensures Classified(labels, r).Keys == labels.Keys
  {
  }

  lemma {:induction false} Concat(t: Talk, a: seq<Step>, b: seq<Step>, rewinds: bool)
    requires Runs(t, a, rewinds) && Runs(End(t, a, rewinds), b, rewinds)
    ensures Runs(t, a + b, rewinds) && End(t, a + b, rewinds) == End(End(t, a, rewinds), b, rewinds)
    decreases |a|
  {
    hide Apply, Enabled;
    if a == [] {
      assert a + b == b;
    } else {
      Concat(Apply(t, a[0]), a[1..], b, rewinds);
      assert (a + b)[1..] == a[1..] + b;
    }
  }

  // ---------------------------------------------------------------------------------------------
  // Exactly without rewinds
  // ---------------------------------------------------------------------------------------------

  /**
    Within one epoch, over every history and continuation, labels go from absent to asked to terminal
    and never back exactly when no stranded run is rewound.
   */
  lemma LabelsMoveForwardExactly(rewinds: bool)
    ensures AlwaysForward(rewinds) <==> !rewinds
  {
    hide Runs, End, Apply, Enabled;
    if rewinds {
      var past, now := TheTerminalIsLost();
      assert !OnlyForward(now, [Rewind], true);
    } else {
      forall past: seq<Step>, more: seq<Step> | Runs(START, past, rewinds) && Runs(End(START, past, rewinds), more, rewinds)
        ensures OnlyForward(End(START, past, rewinds), more, rewinds)
      {
        WithoutRewinds(START, past);
        var now := End(START, past, false);
        WithoutRewinds(now, more);
        if |more| == 1 {
          SingleStep(now, more);
        }
      }
    }
  }

  lemma SingleStep(t: Talk, more: seq<Step>)
    requires Recorded(t) && |more| == 1 && Runs(t, more, false)
    ensures OneStep(t.labels, End(t, more, false).labels)
  {
    hide Apply, Enabled, Recorded;
    assert more[1..] == [];
    StepKeeps(t, more[0]);
  }

  /**
    Every question frozen is on record, and one about to be frozen is on record as asked, in every
    history exactly when no stranded run is rewound.
   */
  lemma QuestionsAreRecordedExactly(rewinds: bool)
    ensures AlwaysRecorded(rewinds) <==> !rewinds
  {
    hide Runs, End, Apply, Enabled;
    if rewinds {
      var past, now := TheTerminalIsLost();
      Concat(START, past, [Rewind], true);
      assert OVERTIME in End(START, past + [Rewind], true).sent;
      assert !Recorded(End(START, past + [Rewind], true));
    } else {
      forall past: seq<Step> | Runs(START, past, false) ensures Recorded(End(START, past, false)) {
        WithoutRewinds(START, past);
      }
    }
  }
}
