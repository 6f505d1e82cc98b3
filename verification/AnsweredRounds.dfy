/** What an answered round pays: every asked field is paid as labelled, everything else as it stood or as carried forward. */
module AnsweredRounds {
  import opened Prelude
  import opened Contracts
  import opened ReconcileNames
  import opened Validate
  import opened AliasLearning
  import opened CalcEngine
  import opened Backfill
  import opened Orchestrator
  import opened Rounds
  import opened Replies

  /** The two sets, in terms of the labels after classification: they differ by the asked and by the carried-forward pairs. */
  lemma SetsExactly(labels: Labels, r: Resume)
    ensures var now := Classified(labels, r);
      && SuppressDetection(labels, r) == (set p | p in now && now[p] != Asked)
      && BackfillSkip(labels, r) == set p | p in now && now[p] != CarriedForward
  {
    hide Answer;
    var now := Classified(labels, r);
    forall p ensures p in SuppressDetection(labels, r) <==> p in now && now[p] != Asked {
    }
    forall p ensures p in BackfillSkip(labels, r) <==> p in now && now[p] != CarriedForward {
    }
  }

  // ---------------------------------------------------------------------------------------------
  // From extraction to the hours the calculation sees
  // ---------------------------------------------------------------------------------------------

  /** The hours backfill hands on for a resolved employee. */
  lemma FilledHours(c: Context, x: Extracted, i: nat, p: Pair)
    requires i < |x| && Matches(c, x)[i].matched == Some(p.id)
    ensures Filled(c, x)[i].Get(p.field) == FilledValue(x[i].Get(p.field), SnapshotHours(c, x, p), p in c.backfillSkip)
  {
    ReconciledIds(c.norm, Names(x), c.roster, c.overrides, i);
    if c.snapshot.Some? {
      hide NameToId, KeyedById, Reconcile, ConfirmedPrior;
      var keyed := SnapshotById(c.snapshot.value, SharedPrior(c, x));
      if p.id in keyed {
        FillGet(x[i], keyed[p.id], p.id, c.backfillSkip, p.field);
      }
    }
  }

  lemma OverwrittenNames(labels: Labels, r: Resume)
    ensures Names(Overwritten(labels, r)) == Names(r.combined)
  {
  }

  lemma OverwriteGet(e: ExtractedEmployee, ids: map<string, EmployeeId>, forced: map<Pair, Option<Hours>>, f: HoursField)
    ensures OverwriteOne(e, ids, forced).Get(f) ==
            if e.submittedName in ids && Pair(ids[e.submittedName], f) in forced then forced[Pair(ids[e.submittedName], f)] else e.Get(f)
  {
    match f case Regular => case Overtime => case Vacation => case Sick => case Holiday =>
  }

  /** An employee resolving to the pair's id without overrides has the forced value if the field was asked, else its own. */
  lemma OverwrittenHours(labels: Labels, r: Resume, i: nat, p: Pair)
    requires i < |r.combined| && ReconcileOne(r.norm, r.combined[i].submittedName, r.roster, map[]).matched == Some(p.id)
    ensures Overwritten(labels, r)[i].Get(p.field) ==
            if p in labels && labels[p] == Asked then ForcedValue(Answer(r, p), p.field) else r.combined[i].Get(p.field)
  {
    hide NameToId, Reconcile, ReconcileOne, Answer, OverwriteOne;
    ReconciledIds(r.norm, Names(r.combined), r.roster, map[], i);
    OverwriteGet(r.combined[i], NameToId(Reconcile(r.norm, Names(r.combined), r.roster, map[])), ForcedValues(labels, r), p.field);
  }

  /** Employee i of the combined extraction means this id to the gate, and to the map that writes the answers. */
  ghost predicate MeansBothWays(r: Resume, i: nat, id: EmployeeId) {
    && i < |r.combined|
    && ReconcileOne(r.norm, r.combined[i].submittedName, r.roster, map[]).matched == Some(id)
    && ReconcileOne(r.norm, r.combined[i].submittedName, r.roster, r.overrides).matched == Some(id)
  }

  /** Without operator overrides the two readings are one. */
  lemma NoOverridesMeansBothWays(r: Resume, i: nat, id: EmployeeId)
    requires r.overrides == map[] && i < |r.combined|
    ensures MeansBothWays(r, i, id) <==> ReconcileOne(r.norm, r.combined[i].submittedName, r.roster, r.overrides).matched == Some(id)
  {
  }

  function FinalHours(labels: Labels, r: Resume, i: nat, f: HoursField): Option<Hours>
    requires i < |r.combined|
  {
    Filled(AnsweredContext(labels, r), Overwritten(labels, r))[i].Get(f)
  }

  function CarriedHours(labels: Labels, r: Resume, p: Pair): Option<Hours> {
    var snap := SnapshotHours(AnsweredContext(labels, r), Overwritten(labels, r), p);
    if IsPaid(snap) then snap else None
  }

  /**
    Label and hours are what the speaker's own field says, a silent one leaving the hours to the
    snapshot; when nobody speaks for the employee the field stays asked and nothing is paid for it.
   */
  ghost predicate PaidAsLabelled(labels: Labels, r: Resume, i: nat, p: Pair)
    requires i < |r.combined|
  {
    var now := FinalHours(labels, r, i, p.field);
    && p in Classified(labels, r)
    && (forall k: nat | Speaks(r, p.id, k) :: AnsweredAs(labels, r, p, r.reply[k].Get(p.field), now))
    && (NobodySpeaks(r, p.id) ==> Classified(labels, r)[p] == Asked && now == None)
  }

  predicate AnsweredAs(labels: Labels, r: Resume, p: Pair, said: Option<Hours>, now: Option<Hours>) {
    && p in Classified(labels, r) && Classified(labels, r)[p] == AnswerGiven(said)
    && now == if said.Some? then said else CarriedHours(labels, r, p)
  }

  /** The matches of the pass depend only on names, which overwriting keeps. */
  lemma OverwrittenMatches(labels: Labels, r: Resume, i: nat)
    requires i < |r.combined|
    ensures Matches(AnsweredContext(labels, r), Overwritten(labels, r))[i] ==
            ReconcileOne(r.norm, r.combined[i].submittedName, r.roster, r.overrides)
  {
    hide ReconcileOne;
    OverwrittenNames(labels, r);
    assert Names(Overwritten(labels, r))[i] == Names(r.combined)[i];
  }

  /** The hours of an asked field, by the employee the lookup found. */
  lemma AskedFieldHours(labels: Labels, r: Resume, i: nat, p: Pair)
    requires p in labels && labels[p] == Asked && MeansBothWays(r, i, p.id)
    ensures var found := Answer(r, p);
      FinalHours(labels, r, i, p.field) ==
      if found.None? then None else if found.value.Get(p.field).Some? then found.value.Get(p.field) else CarriedHours(labels, r, p)
  {
    hide Filled, Overwritten, SuppressDetection, BackfillSkip, Answer, ReconcileOne, SnapshotHours;
    var c, x := AnsweredContext(labels, r), Overwritten(labels, r);
    OverwrittenMatches(labels, r, i);
    OverwrittenHours(labels, r, i, p);
    FilledHours(c, x, i, p);
    SetsExactly(labels, r);
  }

  /**
    For every field asked and every employee meaning its id, the hours that reach the calculation and
    the new label are what the reply's own employee said, whatever the combined extraction held.
   */
  lemma AskedFieldIsPaidAsLabelled(labels: Labels, r: Resume, i: nat, p: Pair)
    requires p in labels && labels[p] == Asked && MeansBothWays(r, i, p.id)
    ensures PaidAsLabelled(labels, r, i, p)
  {
    hide Answer, FinalHours, CarriedHours, NobodySpeaks, StandsFor, Classified;
    AskedFieldHours(labels, r, i, p);
    StaysAskedExactly(labels, r, p);
    FindsNobody(r, p);
    forall k: nat | Speaks(r, p.id, k) ensures AnsweredAs(labels, r, p, r.reply[k].Get(p.field), FinalHours(labels, r, i, p.field)) {
      FindsTheSpeaker(r, p, k);
      SpeakerAnswers(labels, r, p, k);
    }
  }

  /** A field not asked this round keeps the combined extraction's value, unless backfill may and does restore it. */
  lemma UnaskedFieldKeepsItsValue(labels: Labels, r: Resume, i: nat, p: Pair)
    requires !(p in labels && labels[p] == Asked) && MeansBothWays(r, i, p.id)
    ensures FinalHours(labels, r, i, p.field) ==
            if !IsPaid(r.combined[i].Get(p.field)) && CarriedHours(labels, r, p).Some? && p !in BackfillSkip(labels, r)
            then CarriedHours(labels, r, p) else r.combined[i].Get(p.field)
  {
    hide Filled, Overwritten, SuppressDetection, BackfillSkip, Answer, ReconcileOne, SnapshotHours;
    var c, x := AnsweredContext(labels, r), Overwritten(labels, r);
    OverwrittenMatches(labels, r, i);
    OverwrittenHours(labels, r, i, p);
    FilledHours(c, x, i, p);
  }

  // ---------------------------------------------------------------------------------------------
  // Operator overrides
  // ---------------------------------------------------------------------------------------------

  /** A name whose employee the gate learns from an override alone keeps the combined value, whatever the client answered. */
  lemma OverrideBypassesTheAnswer(labels: Labels, r: Resume, i: nat, p: Pair)
    requires i < |r.combined| && IsPaid(r.combined[i].Get(p.field))
    requires ReconcileOne(r.norm, r.combined[i].submittedName, r.roster, map[]).matched == None
    requires ReconcileOne(r.norm, r.combined[i].submittedName, r.roster, r.overrides).matched == Some(p.id)
    ensures FinalHours(labels, r, i, p.field) == r.combined[i].Get(p.field)
  {
    hide Filled, Overwritten, SuppressDetection, BackfillSkip, Answer, ReconcileOne, SnapshotHours, OverwriteOne;
    var c, x := AnsweredContext(labels, r), Overwritten(labels, r);
    OverwrittenMatches(labels, r, i);
    ForeignNameUntouched(labels, r, i, p);
    FilledHours(c, x, i, p);
  }

  /** Answers for an id are not written onto an employee whose name does not lead to it without overrides. */
  lemma ForeignNameUntouched(labels: Labels, r: Resume, i: nat, p: Pair)
    requires i < |r.combined|
    requires forall q <- labels :: ReconcileOne(r.norm, r.combined[i].submittedName, r.roster, map[]).matched != Some(q.id)
    ensures Overwritten(labels, r)[i].Get(p.field) == r.combined[i].Get(p.field)
  {
    hide NameToId, Reconcile, ReconcileOne, Answer, OverwriteOne;
    var ids := NameToId(Reconcile(r.norm, Names(r.combined), r.roster, map[]));
    ReconciledIds(r.norm, Names(r.combined), r.roster, map[], i);
    assert Consistent(ReconcileOne(r.norm, r.combined[i].submittedName, r.roster, map[]));
    OverwriteGet(r.combined[i], ids, ForcedValues(labels, r), p.field);
  }

  const SILENT := ExtractedEmployee("", None, None, None, None, None, None)

  /**
    The snapshot paid two hours to a name the operator had resolved, the reply says nothing of
    anybody, and the combined extraction still holds one of the hours.
   */
  function LeftoverHour(norm: Normalizer, roster: Roster, overrides: map<string, IdText>, name: string, id: EmployeeId, f: HoursField)
    : Resume
  {
    var row := SILENT.(submittedName := name);
    Resume(norm, roster, [], [row.With(f, Some(1.0))], Some([row.With(f, Some(2.0))]), [Match(name, Some(id), Operator, true)],
           overrides, [])
  }

  ghost predicate AlwaysPaidAsLabelled(norm: Normalizer, roster: Roster, overrides: map<string, IdText>, name: string, id: EmployeeId) {
    forall labels: Labels, r: Resume, i: nat, f: HoursField ::
      r.norm == norm && r.roster == roster && r.overrides == overrides && i < |r.combined|
      && r.combined[i].submittedName == name && Pair(id, f) in labels && labels[Pair(id, f)] == Asked
      ==> PaidAsLabelled(labels, r, i, Pair(id, f))
  }

  /**
    With operator overrides the law holds for a name the gate resolves to an employee exactly when
    the plain resolver gives that employee too; otherwise the answer is written past the name.
   */
  lemma OverriddenNamesExactly(norm: Normalizer, roster: Roster, overrides: map<string, IdText>, name: string, id: EmployeeId)
    requires ReconcileOne(norm, name, roster, overrides).matched == Some(id)
    ensures AlwaysPaidAsLabelled(norm, roster, overrides, name, id) <==> ReconcileOne(norm, name, roster, map[]).matched == Some(id)
  {
    hide PaidAsLabelled, ReconcileOne;
    if ReconcileOne(norm, name, roster, map[]).matched == Some(id) {
      forall labels: Labels, r: Resume, i: nat, f: HoursField |
        r.norm == norm && r.roster == roster && r.overrides == overrides && i < |r.combined|
        && r.combined[i].submittedName == name && Pair(id, f) in labels && labels[Pair(id, f)] == Asked
        ensures PaidAsLabelled(labels, r, i, Pair(id, f))
      {
        AskedFieldIsPaidAsLabelled(labels, r, i, Pair(id, f));
      }
    } else {
      LeftoverHourIsPaid(norm, roster, overrides, name, id);
      var labels: Labels, r := map[Pair(id, Overtime) := Asked], LeftoverHour(norm, roster, overrides, name, id, Overtime);
      assert r.combined[0].submittedName == name;
      assert !PaidAsLabelled(labels, r, 0, Pair(id, Overtime));
    }
  }

  /** The witness is a round the program can be in: the snapshot paid the asked field to that very employee. */
  lemma LeftoverHourWasPaid(norm: Normalizer, roster: Roster, overrides: map<string, IdText>, name: string, id: EmployeeId)
    ensures var r := LeftoverHour(norm, roster, overrides, name, id, Overtime);
      var keyed := SnapshotById(r.snapshot.value, Some(PriorForBackfill(r)));
      id in keyed && keyed[id].overtime == Some(2.0)
  {
    hide Reconcile;
    var r := LeftoverHour(norm, roster, overrides, name, id, Overtime);
    var prior := PriorForBackfill(r);
    assert prior[|prior| - 1] == r.prior[0] && NameToId(prior)[name] == id;
    assert r.snapshot.value[..0] == [];
  }

  lemma LeftoverHourIsPaid(norm: Normalizer, roster: Roster, overrides: map<string, IdText>, name: string, id: EmployeeId)
    requires ReconcileOne(norm, name, roster, overrides).matched == Some(id)
    requires ReconcileOne(norm, name, roster, map[]).matched != Some(id)
    ensures !PaidAsLabelled(map[Pair(id, Overtime) := Asked], LeftoverHour(norm, roster, overrides, name, id, Overtime), 0, Pair(id, Overtime))
    ensures var r := LeftoverHour(norm, roster, overrides, name, id, Overtime);
      var keyed := SnapshotById(r.snapshot.value, Some(PriorForBackfill(r)));
      id in keyed && keyed[id].overtime == Some(2.0)
  {
    LeftoverHourWasPaid(norm, roster, overrides, name, id);
    hide Filled, Overwritten, SuppressDetection, BackfillSkip, ReconcileOne, SnapshotHours, OverwriteOne;
    var p, r := Pair(id, Overtime), LeftoverHour(norm, roster, overrides, name, id, Overtime);
    var labels: Labels := map[p := Asked];
    FindsNobody(r, p);
    assert NobodySpeaks(r, id);
    OverwrittenMatches(labels, r, 0);
    ForeignNameUntouched(labels, r, 0, p);
    FilledHours(AnsweredContext(labels, r), Overwritten(labels, r), 0, p);
  }

  // ---------------------------------------------------------------------------------------------
  // Rounds that process
  // ---------------------------------------------------------------------------------------------

  /** An answered round that processes restored only fields labelled carried forward. */
  lemma OnlyCarriedForwardIsRestored(labels: Labels, r: Resume, i: nat, f: HoursField)
    requires i < |r.combined| && Gate(AnsweredContext(labels, r), Overwritten(labels, r)).process
    requires FinalHours(labels, r, i, f) != Overwritten(labels, r)[i].Get(f)
    ensures var m, now := ReconcileOne(r.norm, r.combined[i].submittedName, r.roster, r.overrides), Classified(labels, r);
      m.resolved && Pair(m.matched.value, f) in now && now[Pair(m.matched.value, f)] == CarriedForward
  {
    hide Filled, Overwritten, SuppressDetection, BackfillSkip, Gate, ReconcileOne, Classified;
    var c, x := AnsweredContext(labels, r), Overwritten(labels, r);
    NothingCarriedUnasked(c, x, i, f);
    OverwrittenMatches(labels, r, i);
    FilledHours(c, x, i, Pair(Matches(c, x)[i].matched.value, f));
    SetsExactly(labels, r);
  }

  /** A first resume that processes restored nothing at all. */
  lemma FirstResumeRestoresNothing(r: Resume, i: nat, f: HoursField)
    requires i < |r.combined| && Gate(FirstContext(r), r.combined).process
    ensures Filled(FirstContext(r), r.combined)[i].Get(f) == r.combined[i].Get(f)
  {
    hide Filled, Gate;
    if Filled(FirstContext(r), r.combined)[i].Get(f) != r.combined[i].Get(f) {
      NothingCarriedUnasked(FirstContext(r), r.combined, i, f);
      assert false;
    }
  }

  /** A processed round leaves no unanswered question behind: where nobody in the reply answered, the snapshot paid nothing. */
  lemma UnresolvableFieldHadNoPay(labels: Labels, r: Resume, i: nat, p: Pair)
    requires Gate(AnsweredContext(labels, r), Overwritten(labels, r)).process
    requires p in labels && labels[p] == Asked && NobodySpeaks(r, p.id) && MeansBothWays(r, i, p.id)
    ensures CarriedHours(labels, r, p) == None
  {
    hide Gate, Overwritten, SuppressDetection, BackfillSkip, ReconcileOne, SnapshotHours, Answer, NobodySpeaks;
    var c, x := AnsweredContext(labels, r), Overwritten(labels, r);
    FindsNobody(r, p);
    OverwrittenMatches(labels, r, i);
    OverwrittenHours(labels, r, i, p);
    SetsExactly(labels, r);
    if IsPaid(SnapshotHours(c, x, p)) {
      NoPaidHourVanishesUnanswered(c, x, i, p.field);
      assert false;
    }
  }

  /**
    The hours paid for a field: of a field asked about, what the reply's own employee said, or the
    snapshot's hours if it was silent, or nothing if nobody spoke; of a field the client had already let
    stand, the snapshot's hours where the extraction has none; of any other field, the extraction's.
   */
  ghost predicate HoursAsSaid(labels: Labels, r: Resume, i: nat, p: Pair, paid: Hours)
    requires i < |r.combined|
  {
    var own, carried := r.combined[i].Get(p.field), CarriedHours(labels, r, p);
    if p in labels && labels[p] == Asked then
      && (forall k: nat | Speaks(r, p.id, k) ::
            var said := r.reply[k].Get(p.field); paid == PaidHours(if said.Some? then said else carried))
      && (NobodySpeaks(r, p.id) ==> paid == 0.0)
    else if p in labels && labels[p] == CarriedForward && !IsPaid(own) && carried.Some? then paid == carried.value
    else paid == PaidHours(own)
  }

  /** Line i of a processed round: its own name, and a roster employee paid in their own way for the hours every field calls for. */
  ghost predicate LineAsSaid(labels: Labels, r: Resume, i: nat, item: PaystubLineItem)
    requires i < |r.combined|
  {
    && item.submittedName == r.combined[i].submittedName
    && (exists employee <- r.roster :: PaysEmployee(item, employee, r.combined[i].contribution401k))
    && forall f: HoursField :: HoursAsSaid(labels, r, i, Pair(item.employeeId, f), item.hours.Get(f))
  }

  /**
    End to end: an answered round without overrides that processes issues one line per employee
    in order, each for a different roster employee, whose every field is the client's answer when
    it was asked, a carried-forward snapshot value when an earlier answer allows it, and the
    combined extraction's own value otherwise.
   */
  lemma AnsweredRoundPaysWhatWasSaid(labels: Labels, r: Resume)
    requires r.overrides == map[] && Gate(AnsweredContext(labels, r), Overwritten(labels, r)).process
    ensures var s := StagesOf(AnsweredContext(labels, r), Overwritten(labels, r));
      && s.Ok? && s.value.items.Some? && |s.value.items.value| == |r.combined|
      && (forall i, j | 0 <= i < j < |r.combined| :: s.value.items.value[i].employeeId != s.value.items.value[j].employeeId)
      && forall i | 0 <= i < |r.combined| :: LineAsSaid(labels, r, i, s.value.items.value[i])
  {
    hide Gate, Filled, Overwritten, LineItems, RosterIds, Issues, HoursAsSaid, Matches, CalculatedFor;
    var c, x := AnsweredContext(labels, r), Overwritten(labels, r);
    ProcessPaysEveryoneOnce(c, x);
    var s := StagesOf(c, x).value;
    forall i | 0 <= i < |r.combined| ensures LineAsSaid(labels, r, i, s.items.value[i]) {
      LineIsAsSaid(labels, r, i, s.items.value[i]);
    }
  }

  lemma LineIsAsSaid(labels: Labels, r: Resume, i: nat, item: PaystubLineItem)
    requires r.overrides == map[] && Gate(AnsweredContext(labels, r), Overwritten(labels, r)).process && i < |r.combined|
    requires var c, x := AnsweredContext(labels, r), Overwritten(labels, r);
      LineOf(item, Filled(c, x)[i], Matches(c, x)[i], r.roster)
    ensures LineAsSaid(labels, r, i, item)
  {
    hide Gate, Filled, Overwritten, RosterIds, HoursAsSaid, Matches, Calculate, PaysEmployee;
    FilledOnes(labels, r, i);
    OverwrittenMatches(labels, r, i);
    var employee :| employee in r.roster && employee.id == item.employeeId
                    && CalculatedFor(item, Filled(AnsweredContext(labels, r), Overwritten(labels, r))[i], employee);
    assert PaysEmployee(item, employee, r.combined[i].contribution401k);
    forall f: HoursField ensures HoursAsSaid(labels, r, i, Pair(item.employeeId, f), item.hours.Get(f)) {
      ProcessedHours(labels, r, i, Pair(item.employeeId, f));
    }
  }

  /** Neither the answers nor backfill touch a name or a 401k override. */
  lemma FilledOnes(labels: Labels, r: Resume, i: nat)
    requires i < |r.combined|
    ensures var filled := Filled(AnsweredContext(labels, r), Overwritten(labels, r))[i];
      filled.submittedName == r.combined[i].submittedName && filled.contribution401k == r.combined[i].contribution401k
  {
    hide AnsweredContext, Filled;
    FilledKeeps(AnsweredContext(labels, r), Overwritten(labels, r), i);
  }

  lemma ProcessedHours(labels: Labels, r: Resume, i: nat, p: Pair)
    requires r.overrides == map[] && Gate(AnsweredContext(labels, r), Overwritten(labels, r)).process
    requires i < |r.combined| && ReconcileOne(r.norm, r.combined[i].submittedName, r.roster, map[]).matched == Some(p.id)
    ensures HoursAsSaid(labels, r, i, p, PaidHours(FinalHours(labels, r, i, p.field)))
  {
    hide Gate, FinalHours, ReconcileOne, Answer, CarriedHours, StandsFor, NobodySpeaks, Classified;
    NoOverridesMeansBothWays(r, i, p.id);
    if p in labels && labels[p] == Asked {
      AskedFieldIsPaidAsLabelled(labels, r, i, p);
    } else {
      UnaskedHours(labels, r, i, p);
    }
  }

  /** A field not asked about shows the extraction's hours, or, once carried forward, the snapshot's where there are none. */
  lemma UnaskedHours(labels: Labels, r: Resume, i: nat, p: Pair)
    requires r.overrides == map[] && Gate(AnsweredContext(labels, r), Overwritten(labels, r)).process
    requires i < |r.combined| && ReconcileOne(r.norm, r.combined[i].submittedName, r.roster, map[]).matched == Some(p.id)
    requires !(p in labels && labels[p] == Asked)
    ensures var own, carried := r.combined[i].Get(p.field), CarriedHours(labels, r, p);
      FinalHours(labels, r, i, p.field) ==
      if p in labels && labels[p] == CarriedForward && !IsPaid(own) && carried.Some? then carried else own
  {
    hide Gate, FinalHours, Overwritten, ReconcileOne, SuppressDetection, BackfillSkip, SnapshotHours, Answer;
    NoOverridesMeansBothWays(r, i, p.id);
    UnaskedFieldKeepsItsValue(labels, r, i, p);
    OverwrittenHours(labels, r, i, p);
    SetsExactly(labels, r);
    if FinalHours(labels, r, i, p.field) != Overwritten(labels, r)[i].Get(p.field) {
      OnlyCarriedForwardIsRestored(labels, r, i, p.field);
    }
  }
}
