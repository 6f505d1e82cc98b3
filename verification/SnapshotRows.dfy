/**
  Which row of the snapshot speaks for an employee, told by names and matches alone: on an answered round,
  on a first resume, and for an employee whose name was only confirmed by the reply.
*/
module SnapshotRows {
  import opened Prelude
  import opened Contracts
  import opened ReconcileNames
  import opened Validate
  import opened AliasLearning
  import opened Backfill
  import opened Orchestrator
  import opened Rounds
  import opened AnsweredRounds

  /** Of the rows whose name last meant the employee, k is the last. */
  ghost predicate LastRow(snapshot: Extracted, matches: seq<NameMatch>, id: EmployeeId, k: nat) {
    && k < |snapshot| && LastMeans(matches, snapshot[k].submittedName, id)
    && forall j | k < j < |snapshot| :: !LastMeans(matches, snapshot[j].submittedName, id)
  }

  lemma KeyedByLastRow(snapshot: Extracted, matches: seq<NameMatch>, id: EmployeeId, k: nat)
    requires LastRow(snapshot, matches, id, k)
    ensures var keyed := KeyedById(snapshot, NameToId(matches)); id in keyed && keyed[id] == snapshot[k]
  {
    hide LastMeans, NameToId;
    forall j | 0 <= j < |snapshot|
      ensures var name, ids := snapshot[j].submittedName, NameToId(matches);
        name in ids && ids[name] == id <==> LastMeans(matches, name, id)
    {
      NameToIdMeans(matches, snapshot[j].submittedName, id);
    }
    KeyedComplete(snapshot, NameToId(matches), k);
  }

  /** The bridge leaves the row of an employee the prior matches already knew. */
  lemma PriorRowCounts(c: Context, x: Extracted, prior: seq<NameMatch>, p: Pair, k: nat)
    requires c.snapshot.Some? && c.priorMatches == Some(prior) && LastRow(c.snapshot.value, prior, p.id, k)
    ensures SnapshotHours(c, x, p) == c.snapshot.value[k].Get(p.field)
  {
    hide LastMeans, Bridged, Matches, NameToId, KeyedById, MappedIds;
    var snapshot, name := c.snapshot.value, c.snapshot.value[k].submittedName;
    KeyedByLastRow(snapshot, prior, p.id, k);
    NameToIdMeans(prior, name, p.id);
    NameToIdHas(prior, name);
    BridgeKeepsPairing(c.norm, prior, Matches(c, x), c.candidates, c.roster, snapshot, p.id);
  }

  // ---------------------------------------------------------------------------------------------
  // First resumes
  // ---------------------------------------------------------------------------------------------

  /**
    A first resume pays exactly the combined extraction: each line the extracted employee's own hours, paid
    as the matched roster employee is paid.
   */
  lemma FirstResumePaysTheExtraction(r: Resume)
    requires Gate(FirstContext(r), r.combined).process
    ensures var s := StagesOf(FirstContext(r), r.combined);
      && s.Ok? && s.value.items.Some? && |s.value.items.value| == |r.combined|
      && (forall i, j | 0 <= i < j < |r.combined| :: s.value.items.value[i].employeeId != s.value.items.value[j].employeeId)
      && forall i | 0 <= i < |r.combined| ::
           LineOf(s.value.items.value[i], r.combined[i], ReconcileOne(r.norm, r.combined[i].submittedName, r.roster, r.overrides), r.roster)
  {
    hide Gate, Filled, LineItems, LineOf, ReconcileOne, Issues;
    ProcessPaysEveryoneOnce(FirstContext(r), r.combined);
    forall i | 0 <= i < |r.combined| ensures Filled(FirstContext(r), r.combined)[i] == r.combined[i] {
      NothingRestored(r, i);
    }
  }

  lemma NothingRestored(r: Resume, i: nat)
    requires i < |r.combined| && Gate(FirstContext(r), r.combined).process
    ensures Filled(FirstContext(r), r.combined)[i] == r.combined[i]
  {
    hide Gate, Filled;
    forall f: HoursField ensures Filled(FirstContext(r), r.combined)[i].Get(f) == r.combined[i].Get(f) {
      FirstResumeRestoresNothing(r, i, f);
    }
    FilledKeeps(FirstContext(r), r.combined, i);
    SameByFields(Filled(FirstContext(r), r.combined)[i], r.combined[i]);
  }

  lemma SameByFields(a: ExtractedEmployee, b: ExtractedEmployee)
    requires a.submittedName == b.submittedName && a.contribution401k == b.contribution401k && forall f: HoursField :: a.Get(f) == b.Get(f)
    ensures a == b
  {
    assert a.Get(Regular) == b.Get(Regular) && a.Get(Overtime) == b.Get(Overtime) && a.Get(Vacation) == b.Get(Vacation);
    assert a.Get(Sick) == b.Get(Sick) && a.Get(Holiday) == b.Get(Holiday);
  }

  /** A first resume never processes while an employee lacks pay that the snapshot's row for them held. */
  lemma FirstResumeAsksForLostPay(r: Resume, i: nat, k: nat, f: HoursField)
    requires i < |r.combined| && r.snapshot.Some?
    requires var m := ReconcileOne(r.norm, r.combined[i].submittedName, r.roster, r.overrides);
      m.matched.Some? && LastRow(r.snapshot.value, r.prior, m.matched.value, k)
    requires IsPaid(r.snapshot.value[k].Get(f)) && !IsPaid(r.combined[i].Get(f))
    ensures !Gate(FirstContext(r), r.combined).process
  {
    hide LastRow, Gate, ReconcileOne, SnapshotHours;
    var c := FirstContext(r);
    var id := Matches(c, r.combined)[i].matched.value;
    PriorRowCounts(c, r.combined, r.prior, Pair(id, f), k);
    if Gate(c, r.combined).process {
      NoPaidHourVanishesUnanswered(c, r.combined, i, f);
      assert false;
    }
  }

  // ---------------------------------------------------------------------------------------------
  // Answered rounds
  // ---------------------------------------------------------------------------------------------

  /** In the snapshot a name means whom it last meant before; only a name never resolved before means whom it resolves to now. */
  ghost predicate RowMeans(r: Resume, name: string, id: EmployeeId) {
    || LastMeans(r.prior, name, id)
    || (NeverResolved(r.prior, name) && ReconcileOne(r.norm, name, r.roster, map[]).matched == Some(id))
  }

  lemma RowMeansLast(r: Resume, i: nat, id: EmployeeId)
    requires r.snapshot.Some? && i < |r.snapshot.value|
    ensures LastMeans(PriorForBackfill(r), r.snapshot.value[i].submittedName, id) <==> RowMeans(r, r.snapshot.value[i].submittedName, id)
  {
    hide LastMeans, NeverResolved, NameToId, Reconcile, ReconcileOne;
    var name, now := r.snapshot.value[i].submittedName, Reconcile(r.norm, Names(r.snapshot.value), r.roster, map[]);
    LaterListDecides(now, r.prior, name);
    ReconciledIds(r.norm, Names(r.snapshot.value), r.roster, map[], i);
    assert Consistent(ReconcileOne(r.norm, name, r.roster, map[]));
    NameToIdMeans(r.prior, name, id);
    NameToIdMeans(PriorForBackfill(r), name, id);
    assert PriorForBackfill(r) == now + r.prior;
  }

  /** What an answered round carries forward for a field is the pay on the last row of the snapshot that means the employee. */
  lemma CarriedFromOwnRow(labels: Labels, r: Resume, p: Pair, k: nat)
    requires r.snapshot.Some? && k < |r.snapshot.value| && RowMeans(r, r.snapshot.value[k].submittedName, p.id)
    requires forall j | k < j < |r.snapshot.value| :: !RowMeans(r, r.snapshot.value[j].submittedName, p.id)
    ensures CarriedHours(labels, r, p) == if IsPaid(r.snapshot.value[k].Get(p.field)) then r.snapshot.value[k].Get(p.field) else None
  {
    hide LastMeans, RowMeans, SnapshotHours, PriorForBackfill;
    forall j | 0 <= j < |r.snapshot.value|
      ensures LastMeans(PriorForBackfill(r), r.snapshot.value[j].submittedName, p.id) <==> RowMeans(r, r.snapshot.value[j].submittedName, p.id)
    {
      RowMeansLast(r, j, p.id);
    }
    PriorRowCounts(AnsweredContext(labels, r), Overwritten(labels, r), PriorForBackfill(r), p, k);
  }

  // ---------------------------------------------------------------------------------------------
  // Names the reply confirmed
  // ---------------------------------------------------------------------------------------------

  /**
    Candidate k stands for a roster employee whom no prior match resolved, under a token none did, and no
    earlier candidate claims either; `row` is the snapshot's last row under that token.
   */
  ghost predicate Confirmed(c: Context, x: Extracted, prior: seq<NameMatch>, k: nat, id: EmployeeId, row: nat) {
    && c.snapshot.Some? && c.priorMatches == Some(prior)
    && k < |c.candidates|
    && (exists e <- c.roster :: e.id == id)
    && Endorses(c.norm, c.candidates[k].0, c.candidates[k].1, Matches(c, x), c.roster, id)
    && Unclaimed(c.norm, prior, Matches(c, x), c.candidates[..k], c.roster, c.candidates[k].0, id)
    && row < |c.snapshot.value| && c.snapshot.value[row].submittedName == c.candidates[k].0
    && forall j | row < j < |c.snapshot.value| :: c.snapshot.value[j].submittedName != c.candidates[k].0
  }

  /** What the snapshot paid under a confirmed token it paid to the employee. */
  lemma ConfirmedTokenIsThePerson(c: Context, x: Extracted, prior: seq<NameMatch>, k: nat, row: nat, p: Pair)
    requires Confirmed(c, x, prior, k, p.id, row)
    ensures SnapshotHours(c, x, p) == c.snapshot.value[row].Get(p.field)
  {
    hide Bridged, Endorses, Unclaimed, LastMeans, Matches, NameToId, KeyedById;
    var snapshot := c.snapshot.value;
    forall name ensures LastMeans(Bridged(c.norm, prior, Matches(c, x), c.candidates, c.roster), name, p.id) <==> name == c.candidates[k].0 {
      BridgedTokenIsSole(c.norm, prior, Matches(c, x), c.candidates, c.roster, k, p.id, name);
    }
    KeyedByLastRow(snapshot, Bridged(c.norm, prior, Matches(c, x), c.candidates, c.roster), p.id, row);
  }

  /**
    Pay the snapshot held under a confirmed token, and the employee's own row in the new extraction lacks,
    is reported as dropped with its amount; and unless the client has answered for it, the pass does not process.
   */
  lemma ConfirmedTokensDropIsSeen(c: Context, x: Extracted, prior: seq<NameMatch>, k: nat, row: nat, i: nat, p: Pair)
    requires Confirmed(c, x, prior, k, p.id, row)
    requires i < |x| && Matches(c, x)[i].matched == Some(p.id) && forall j | i < j < |x| :: Matches(c, x)[j].matched != Some(p.id)
    requires IsPaid(c.snapshot.value[row].Get(p.field)) && !IsPaid(x[i].Get(p.field))
    ensures RawFieldDrop(x[i].submittedName, p.field, c.snapshot.value[row].Get(p.field).value, x[i].Get(p.field)) in RawDrops(c, x)
    ensures Gate(c, x).process ==> p in c.suppressDetection
  {
    hide Confirmed, SharedPrior, KeyedById, NameToId, FieldRegressions, Gate, Reconcile, SnapshotHours;
    ConfirmedTokenIsThePerson(c, x, prior, k, row, p);
    OwnRowIsKeyed(c, x, i, p.id);
    DropInPlace(c, x, i, p);
    if Gate(c, x).process {
      NoPaidHourVanishesUnanswered(c, x, i, p.field);
    }
  }

  lemma OwnRowIsKeyed(c: Context, x: Extracted, i: nat, id: EmployeeId)
    requires i < |x| && Matches(c, x)[i].matched == Some(id) && forall j | i < j < |x| :: Matches(c, x)[j].matched != Some(id)
    ensures var keyed := KeyedById(x, NameToId(Matches(c, x))); id in keyed && keyed[id] == x[i]
  {
    hide Matches, NameToId, LastMeans, KeyedById;
    forall j | 0 <= j < |x| ensures LastMeans(Matches(c, x), x[j].submittedName, id) <==> Matches(c, x)[j].matched == Some(id) {
      LeadsToMatch(c, x, j);
      NameToIdMeans(Matches(c, x), x[j].submittedName, id);
    }
    KeyedByLastRow(x, Matches(c, x), id, i);
  }

  lemma LeadsToMatch(c: Context, x: Extracted, j: nat)
    requires j < |x|
    ensures var ids, name := NameToId(Matches(c, x)), x[j].submittedName;
      Matches(c, x)[j].matched == if name in ids then Some(ids[name]) else None
  {
    hide ReconcileOne, NameToId;
    ReconciledIds(c.norm, Names(x), c.roster, c.overrides, j);
    assert Consistent(ReconcileOne(c.norm, x[j].submittedName, c.roster, c.overrides));
  }

  lemma DropInPlace(c: Context, x: Extracted, i: nat, p: Pair)
    requires i < |x| && IsPaid(SnapshotHours(c, x, p)) && !IsPaid(x[i].Get(p.field))
    requires var keyed := KeyedById(x, NameToId(Matches(c, x))); p.id in keyed && keyed[p.id] == x[i]
    ensures RawFieldDrop(x[i].submittedName, p.field, SnapshotHours(c, x, p).value, x[i].Get(p.field)) in RawDrops(c, x)
  {
    hide Matches, SharedPrior, KeyedById, NameToId, FieldRegressions;
    var prior := SharedPrior(c, x);
    NoPriorNoSnapshot(c.snapshot.value, prior, p.id);
    var o := SnapshotById(c.snapshot.value, prior)[p.id];
    var d := RawFieldDrop(x[i].submittedName, p.field, o.Get(p.field).value, x[i].Get(p.field));
    assert Dropped(o, x[i], d);
    DropReported(c.snapshot.value, x, prior.value, Matches(c, x), d);
  }

  /** The matches of the resume's own pass. */
  function NowMatches(r: Resume): seq<NameMatch> {
    Reconcile(r.norm, Names(r.combined), r.roster, r.overrides)
  }

  /** Of the resume's stored candidates, number k stands for the employee, nothing earlier claims either, and `row` is its last row. */
  ghost predicate ConfirmedByReply(r: Resume, k: nat, id: EmployeeId, row: nat) {
    && r.snapshot.Some? && k < |r.candidates|
    && (exists e <- r.roster :: e.id == id)
    && Endorses(r.norm, r.candidates[k].0, r.candidates[k].1, NowMatches(r), r.roster, id)
    && Unclaimed(r.norm, r.prior, NowMatches(r), r.candidates[..k], r.roster, r.candidates[k].0, id)
    && row < |r.snapshot.value| && r.snapshot.value[row].submittedName == r.candidates[k].0
    && forall j | row < j < |r.snapshot.value| :: r.snapshot.value[j].submittedName != r.candidates[k].0
  }

  /**
    A first resume never processes while a person whose name it confirmed lacks pay the snapshot held
    under that name.
   */
  lemma ConfirmedNamesAreNotUnderpaid(r: Resume, k: nat, row: nat, i: nat, p: Pair)
    requires ConfirmedByReply(r, k, p.id, row) && i < |r.combined|
    requires ReconcileOne(r.norm, r.combined[i].submittedName, r.roster, r.overrides).matched == Some(p.id)
    requires IsPaid(r.snapshot.value[row].Get(p.field)) && !IsPaid(r.combined[i].Get(p.field))
    ensures !Gate(FirstContext(r), r.combined).process
  {
    hide Endorses, Unclaimed, Gate, ReconcileOne, SnapshotHours;
    var c := FirstContext(r);
    assert Matches(c, r.combined) == NowMatches(r);
    ConfirmedTokenIsThePerson(c, r.combined, r.prior, k, row, p);
    if Gate(c, r.combined).process {
      NoPaidHourVanishesUnanswered(c, r.combined, i, p.field);
      assert false;
    }
  }

  /** No name of the snapshot resolves to the employee, and the confirmed token resolves to nobody. */
  ghost predicate StillUnresolved(r: Resume, token: string, id: EmployeeId)
    requires r.snapshot.Some?
  {
    && ReconcileOne(r.norm, token, r.roster, map[]).matched == None
    && forall e <- r.snapshot.value :: ReconcileOne(r.norm, e.submittedName, r.roster, map[]).matched != Some(id)
  }

  /** On an answered round too, what is carried forward for a person whose name the reply confirmed is the pay under that name. */
  lemma CarriedUnderAConfirmedName(labels: Labels, r: Resume, k: nat, row: nat, p: Pair)
    requires ConfirmedByReply(r, k, p.id, row) && StillUnresolved(r, r.candidates[k].0, p.id)
    ensures CarriedHours(labels, r, p) == if IsPaid(r.snapshot.value[row].Get(p.field)) then r.snapshot.value[row].Get(p.field) else None
  {
    hide Endorses, Unclaimed, SnapshotHours, ReconcileOne;
    var c, x := AnsweredContext(labels, r), Overwritten(labels, r);
    OverwrittenNames(labels, r);
    assert Matches(c, x) == NowMatches(r);
    ClaimsAddNothing(r, k, p.id);
    ConfirmedTokenIsThePerson(c, x, PriorForBackfill(r), k, row, p);
  }

  lemma ClaimsAddNothing(r: Resume, k: nat, id: EmployeeId)
    requires r.snapshot.Some? && k < |r.candidates| && StillUnresolved(r, r.candidates[k].0, id)
    requires Unclaimed(r.norm, r.prior, NowMatches(r), r.candidates[..k], r.roster, r.candidates[k].0, id)
    ensures Unclaimed(r.norm, PriorForBackfill(r), NowMatches(r), r.candidates[..k], r.roster, r.candidates[k].0, id)
  {
    hide Endorses, ReconcileOne;
    var snapshot := r.snapshot.value;
    forall m <- PriorForBackfill(r) | m.resolved ensures m.matched != Some(id) && m.submittedName != r.candidates[k].0 {
      if m !in r.prior {
        var j :| 0 <= j < |snapshot| && m == ReconcileOne(r.norm, snapshot[j].submittedName, r.roster, map[]);
        assert snapshot[j] in snapshot;
        NameKept(r.norm, snapshot[j].submittedName, r.roster, map[]);
        assert Consistent(m);
      }
    }
  }

  // ---------------------------------------------------------------------------------------------
  // What a pass records
  // ---------------------------------------------------------------------------------------------

  /**
    For an employee on both sides of the round, a field the snapshot paid is in the new extraction as it was,
    or is among the pass's drops, or is among the changes the pass stores, each with both its values.
   */
  lemma EveryPaidChangeIsOnRecord(c: Context, x: Extracted, i: nat, p: Pair)
    requires i < |x| && Matches(c, x)[i].matched == Some(p.id) && forall j | i < j < |x| :: Matches(c, x)[j].matched != Some(p.id)
    requires IsPaid(SnapshotHours(c, x, p)) && StagesOf(c, x).Ok?
    ensures var was, now, name := SnapshotHours(c, x, p), x[i].Get(p.field), x[i].submittedName;
      || now == was
      || RawFieldDrop(name, p.field, was.value, now) in RawDrops(c, x)
      || (now.Some? && HoursChange(name, p.field, was.value, now.value) in StagesOf(c, x).value.changes)
  {
    hide Matches, SharedPrior, KeyedById, NameToId, FieldRegressions, HoursChanges, Filled, LineItems, Issues, Gate;
    OwnRowIsKeyed(c, x, i, p.id);
    NoPriorNoSnapshot(c.snapshot.value, SharedPrior(c, x), p.id);
    NoPaidChangeEscapes(c.snapshot.value, x, SharedPrior(c, x).value, Matches(c, x), p.id, p.field);
  }
}
